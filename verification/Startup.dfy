/** Starting everything that is stored: the order of the attempts and their number. */
module Startup {
  import opened Labels
  import opened PodStore
  import opened Status
  import opened Outcomes
  import opened Deletion

  /** The abbot container was last seen running or made to run. */
  predicate AbbotIsUp(h: History, c: Id) {
    && h.Then?
    && (|| h.event == Seen(c, Running)
        || (h.event == Unpaused(c) && h.prev.Then? && h.prev.event == Seen(c, Paused))
        || (&& h.event == AbbotStarted(c) && h.prev.Then? && h.prev.event.Seen? && h.prev.event.ctr == c
            && h.prev.event.state !in {Running, Paused}))
  }

  /** The network of a pod is restored once, on an infra container, unless the pod has none or its containers could
      not be listed. */
  ghost predicate Restored(s: Store, pod: PodRef, a: History, b: History) {
    || b == Then(a, Fault(PodCtrsOp))
    || (b == a && forall c :: !InfraOf(s, c, pod.id))
    || exists c :: InfraOf(s, c, pod.id) && Since(LossyKind, Then(a, RestoreTry(c)), b)
  }

  predicate InfraOf(s: Store, c: Id, p: Id) { InPod(s, c, p) && IsInfra(s.ctrs[c].labels) }

  /** What startup does with one pod: one start attempt and perhaps a restore, or one removal attempt. */
  ghost predicate InitBlock(s: Store, pod: PodRef, a: History, b: History) {
    if !Managed(pod.rec.labels) then Since(RemoveKind, Then(a, RemoveTry(pod.id, false)), b)
    else
      || b == Then(a, PodStart(pod.id, false))
      || (IsHostNetwork(pod.rec.labels) && b == Then(a, PodStart(pod.id, true)))
      || (!IsHostNetwork(pod.rec.labels) && Restored(s, pod, Then(a, PodStart(pod.id, true)), b))
  }

  /** The marks divide the history into one block for each of the first `n` pods. */
  ghost predicate BlocksUpTo(s: Store, pods: seq<PodRef>, marks: seq<History>, n: nat) {
    n <= |pods| && |marks| == n + 1 && forall j | 0 <= j < n :: InitBlock(s, pods[j], marks[j], marks[j + 1])
  }

  lemma BlocksAppend(s: Store, pods: seq<PodRef>, marks: seq<History>, n: nat, h: History)
    requires BlocksUpTo(s, pods, marks, n) && n < |pods| && InitBlock(s, pods[n], marks[n], h)
    ensures BlocksUpTo(s, pods, marks + [h], n + 1)
  {
  }

  ghost predicate InitBlocks(s: Store, pods: seq<PodRef>, marks: seq<History>) {
    BlocksUpTo(s, pods, marks, |pods|)
  }

  datatype Attempt = StartAttempt | RemoveAttempt

  predicate IsAttempt(k: Attempt, p: Id, e: Event) {
    match k
    case StartAttempt => e.PodStart? && e.pod == p
    case RemoveAttempt => e.RemoveTry? && e.pod == p
  }

  function Attempts(k: Attempt, p: Id, h: History): nat {
    match h
    case Start => 0
    case Then(prev, e) => Attempts(k, p, prev) + if IsAttempt(k, p, e) then 1 else 0
  }

  lemma {:induction false} NoAttemptsSince(kind: Kind, a: History, b: History, k: Attempt, p: Id)
    requires Since(kind, a, b) && (kind == LossyKind || kind == RemoveKind || kind == AwakeKind)
    ensures Attempts(k, p, b) == Attempts(k, p, a)
    decreases b
  {
    if a != b {
      NoAttemptsSince(kind, a, b.prev, k, p);
    }
  }

  /** Restoring a network is no attempt to start or remove a pod. */
  lemma NoAttemptsInRestore(s: Store, pod: PodRef, a: History, b: History, k: Attempt, p: Id)
    requires Restored(s, pod, a, b)
    ensures Attempts(k, p, b) == Attempts(k, p, a)
  {
    if b != a && b != Then(a, Fault(PodCtrsOp)) {
      var c :| InfraOf(s, c, pod.id) && Since(LossyKind, Then(a, RestoreTry(c)), b);
      NoAttemptsSince(LossyKind, Then(a, RestoreTry(c)), b, k, p);
    }
  }

  /** A block has exactly one attempt, and it is for its own pod. */
  lemma BlockAttempts(s: Store, pod: PodRef, a: History, b: History, k: Attempt, p: Id)
    requires InitBlock(s, pod, a, b)
    ensures Attempts(k, p, b)
         == Attempts(k, p, a) + if p == pod.id && Managed(pod.rec.labels) == (k == StartAttempt) then 1 else 0
  {
    if !Managed(pod.rec.labels) {
      NoAttemptsSince(RemoveKind, Then(a, RemoveTry(pod.id, false)), b, k, p);
    } else if b != Then(a, PodStart(pod.id, false)) && !IsHostNetwork(pod.rec.labels) {
      NoAttemptsInRestore(s, pod, Then(a, PodStart(pod.id, true)), b, k, p);
    }
  }

  /** Coverage of startup: every listed managed pod has exactly one start attempt and no removal attempt, and every
      other listed pod exactly one removal attempt and no start attempt, whatever failed for other pods. */
  lemma {:induction false} StartupCoversEveryPod(
    s: Store, pods: seq<PodRef>, marks: seq<History>, n: nat, i: nat, k: Attempt)
    requires InitBlocks(s, pods, marks) && n <= |pods| && i < |pods|
    requires forall a, b | 0 <= a < b < |pods| :: pods[a].id != pods[b].id
    ensures Attempts(k, pods[i].id, marks[n]) == Attempts(k, pods[i].id, marks[0])
              + if i < n && Managed(pods[i].rec.labels) == (k == StartAttempt) then 1 else 0
  {
    if n > 0 {
      StartupCoversEveryPod(s, pods, marks, n - 1, i, k);
      BlockAttempts(s, pods[n - 1], marks[n - 1], marks[n], k, pods[i].id);
    }
  }

  /** How often the network of pod `p` was restored on one of its infra containers. */
  function Restores(s: Store, p: Id, h: History): nat {
    match h
    case Start => 0
    case Then(prev, e) => Restores(s, p, prev) + if e.RestoreTry? && InfraOf(s, e.ctr, p) then 1 else 0
  }

  lemma {:induction false} NoRestoresSince(kind: Kind, s: Store, a: History, b: History, p: Id)
    requires Since(kind, a, b) && (kind == LossyKind || kind == RemoveKind || kind == AwakeKind)
    ensures Restores(s, p, b) == Restores(s, p, a)
    decreases b
  {
    if a != b {
      NoRestoresSince(kind, s, a, b.prev, p);
    }
  }

  /** The block that starts at `a` and ends at `b` has a network to restore: the pod is on the cluster network, was
      started, its containers could be listed and one of them is an infra container. */
  ghost predicate RestoreDue(s: Store, pod: PodRef, a: History, b: History) {
    && Managed(pod.rec.labels) && !IsHostNetwork(pod.rec.labels)
    && b != Then(a, PodStart(pod.id, false))
    && b != Then(Then(a, PodStart(pod.id, true)), Fault(PodCtrsOp))
    && exists c :: InfraOf(s, c, pod.id)
  }

  /** A block restores one network if that is due, and it is the network of its own pod. */
  lemma BlockRestores(s: Store, pod: PodRef, a: History, b: History, p: Id)
    requires InitBlock(s, pod, a, b)
    ensures Restores(s, p, b) == Restores(s, p, a) + if p == pod.id && RestoreDue(s, pod, a, b) then 1 else 0
  {
    var started := Then(a, PodStart(pod.id, true));
    if !Managed(pod.rec.labels) {
      NoRestoresSince(RemoveKind, s, Then(a, RemoveTry(pod.id, false)), b, p);
    } else if RestoreDue(s, pod, a, b) {
      var c :| InfraOf(s, c, pod.id) && Since(LossyKind, Then(started, RestoreTry(c)), b);
      NoRestoresSince(LossyKind, s, Then(started, RestoreTry(c)), b, p);
    }
  }

  /** Every pod whose restore is due gets exactly one, every other pod none, whatever failed for other pods. */
  lemma {:induction false} StartupRestoresOnce(s: Store, pods: seq<PodRef>, marks: seq<History>, n: nat, i: nat)
    requires InitBlocks(s, pods, marks) && n <= |pods| && i < |pods|
    requires forall a, b | 0 <= a < b < |pods| :: pods[a].id != pods[b].id
    ensures Restores(s, pods[i].id, marks[n]) == Restores(s, pods[i].id, marks[0])
              + if i < n && RestoreDue(s, pods[i], marks[i], marks[i + 1]) then 1 else 0
  {
    if n > 0 {
      StartupRestoresOnce(s, pods, marks, n - 1, i);
      BlockRestores(s, pods[n - 1], marks[n - 1], marks[n], pods[i].id);
    }
  }

  ghost function Foreign(pods: seq<PodRef>): set<Id> {
    set p | p in pods && !Managed(p.rec.labels) :: p.id
  }

  lemma NextIsThere(s: Store, t: Store, pods: seq<PodRef>, i: nat)
    requires i < |pods| && SameOutside(s, t, Foreign(pods[..i])) && Live(s, pods[i])
    requires forall a, b | 0 <= a < b < |pods| :: pods[a].id != pods[b].id
    ensures Live(t, pods[i]) && forall c :: InfraOf(t, c, pods[i].id) <==> InfraOf(s, c, pods[i].id)
  {
    assert pods[i].id !in Foreign(pods[..i]);
    assert SamePod(s, t, pods[i].id);
    forall c ensures InfraOf(t, c, pods[i].id) <==> InfraOf(s, c, pods[i].id) {
      assert SameCtr(s, t, Foreign(pods[..i]), c);
    }
  }

  lemma ForeignStep(s: Store, t: Store, u: Store, pods: seq<PodRef>, i: nat)
    requires i < |pods| && SameOutside(s, t, Foreign(pods[..i]))
    requires if Managed(pods[i].rec.labels) then u == t else SameOutside(t, u, {pods[i].id})
    ensures SameOutside(s, u, Foreign(pods[..i + 1]))
  {
    assert pods[..i + 1] == pods[..i] + [pods[i]];
    if Managed(pods[i].rec.labels) {
      assert Foreign(pods[..i + 1]) == Foreign(pods[..i]);
    } else {
      assert Foreign(pods[..i + 1]) == Foreign(pods[..i]) + {pods[i].id};
      SameOutsideTrans(s, t, u, Foreign(pods[..i]), {pods[i].id});
    }
  }

  lemma SameBlock(s: Store, t: Store, pod: PodRef, a: History, b: History)
    requires InitBlock(t, pod, a, b) && forall c :: InfraOf(t, c, pod.id) <==> InfraOf(s, c, pod.id)
    ensures InitBlock(s, pod, a, b)
  {
  }

  lemma ForeignOrphans(s: Store, t: Store, pods: seq<PodRef>)
    requires SameOutside(s, t, Foreign(pods)) && forall p | p in pods :: Live(s, p)
    ensures OrphansKept(s, t)
  {
    OrphansOutside(s, t, Foreign(pods));
  }
}
