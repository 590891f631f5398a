/** Listing pods: which pods are reported and which are taken out of the store. */
module Listing {
  import opened Labels
  import opened PodStore
  import opened Status
  import opened Outcomes
  import opened Deletion

  /** `refs` lists exactly the pods whose labels match, each once. */
  ghost predicate EnumeratesPods(pods: map<Id, PodRec>, filters: LabelSet, refs: seq<PodRef>) {
    && (forall r | r in refs :: r.id in pods && pods[r.id] == r.rec && Matches(filters, r.rec.labels))
    && (forall i, j | 0 <= i < j < |refs| :: refs[i].id != refs[j].id)
    && (forall p | p in pods && Matches(filters, pods[p].labels) :: PodRef(p, pods[p]) in refs)
  }

  function ListFilter(all: bool, names: seq<string>): LabelSet {
    if !all && |names| > 0 then map[PodName := names[0]] else map[]
  }

  /** What the filter selects: everything if all pods are asked for or no name is given, otherwise by the first name. An
      empty name selects what has some label and no name, or an empty one. */
  lemma FilterMeaning(all: bool, names: seq<string>, labels: LabelSet)
    ensures all || names == [] ==> Matches(ListFilter(all, names), labels)
    ensures !all && names != [] && names[0] != "" ==>
              (Matches(ListFilter(all, names), labels) <==> PodName in labels && labels[PodName] == names[0])
    ensures !all && names != [] && names[0] == "" ==>
              (Matches(ListFilter(all, names), labels) <==>
                 |labels| >= 1 && (PodName in labels ==> labels[PodName] == ""))
  {
    var f := ListFilter(all, names);
    if !all && names != [] {
      assert PodName in f && |f| == 1;
      if names[0] != "" {
        MatchesIsInclusion(f, labels);
      }
    }
  }

  function Uids(statuses: seq<PodStatus>): seq<string> {
    if statuses == [] then [] else Uids(statuses[..|statuses| - 1]) + [statuses[|statuses| - 1].uid]
  }

  /** A listed pod that is reported and stays: it is managed and has a pause container. */
  ghost predicate Kept(s: Store, pod: PodRef) { Managed(pod.rec.labels) && HasPause(s, pod.id) }

  /** The uids of the pods of `sel` that are reported, in the order of `sel`. */
  ghost function Reported(s: Store, sel: seq<PodRef>): seq<string> {
    if sel == [] then []
    else
      var pod := sel[|sel| - 1];
      Reported(s, sel[..|sel| - 1]) + if Kept(s, pod) then [pod.rec.labels[PodUid]] else []
  }

  ghost function KeptCount(s: Store, sel: seq<PodRef>): nat {
    if sel == [] then 0 else KeptCount(s, sel[..|sel| - 1]) + if Kept(s, sel[|sel| - 1]) then 1 else 0
  }

  /** The kept pods are reported in order: the place of a kept pod is the number of kept pods before it. */
  lemma {:induction false} ReportedAt(s: Store, sel: seq<PodRef>, i: nat)
    requires i < |sel| && Kept(s, sel[i])
    ensures |Reported(s, sel)| == KeptCount(s, sel) && KeptCount(s, sel[..i]) < KeptCount(s, sel)
    ensures Reported(s, sel)[KeptCount(s, sel[..i])] == sel[i].rec.labels[PodUid]
  {
    var n := |sel| - 1;
    ReportedCount(s, sel[..n]);
    if i < n {
      assert sel[..n][..i] == sel[..i];
      ReportedAt(s, sel[..n], i);
    }
  }

  lemma {:induction false} ReportedCount(s: Store, sel: seq<PodRef>)
    ensures |Reported(s, sel)| == KeptCount(s, sel)
  {
    if sel != [] {
      ReportedCount(s, sel[..|sel| - 1]);
    }
  }

  lemma {:induction false} UidsAt(statuses: seq<PodStatus>, k: nat)
    requires k < |statuses|
    ensures |Uids(statuses)| == |statuses| && Uids(statuses)[k] == statuses[k].uid
  {
    var n := |statuses| - 1;
    if n > 0 {
      UidsAt(statuses[..n], if k < n then k else 0);
    }
  }

  /** The pods of `sel` that a listing takes out of the store. */
  ghost function Dismissed(s: Store, sel: seq<PodRef>): set<Id> {
    set pod | pod in sel && !Kept(s, pod) :: pod.id
  }

  lemma OrphanRemovable(s: Store, p: Id)
    requires Inv(s) && forall c :: !InPod(s, c, p)
    ensures Admissible(s, PodEmptied(p))
  {
    if d :| ClusterPause(s, d) {
      var a :| AbbotCtr(s, a);
      assert !InPod(s, a, p) && AbbotCtr(s, a);
    }
  }

  lemma FoundUid(s: Store, pod: PodRef, pause: CtrRef)
    requires Inv(s) && Live(s, pod) && Managed(pod.rec.labels) && LiveCtr(s, pause) && IsPauseOf(s, pause.id, pod.id)
    ensures Read(pause.rec.labels, PodUid) == pod.rec.labels[PodUid]
  {
    assert CtrFits(s, pause.id);
  }

  /** The status reports exactly the containers of the pod, each under its own name. */
  ghost predicate StatusOf(s: Store, p: Id, status: PodStatus) {
    && (forall c | InPod(s, c, p) && Read(s.ctrs[c].labels, PodContainer) != "" ::
          CtrUnder(status, Read(s.ctrs[c].labels, PodContainer), c))
    && (forall name | name in status.containers ::
          InPod(s, status.containers[name], p) && Read(s.ctrs[status.containers[name]].labels, PodContainer) == name)
  }

  predicate CtrUnder(status: PodStatus, name: string, c: Id) {
    name in status.containers && status.containers[name] == c
  }

  /** The status is that of the pod of its uid. */
  ghost predicate TrueStatus(s: Store, status: PodStatus) {
    exists p :: PodOfUid(s, p, status.uid) && StatusOf(s, p, status)
  }

  /** Going through all containers of a managed pod gives its exact status, in whatever order they come. */
  lemma StatusIsExact(s: Store, pod: PodRef, refs: seq<CtrRef>)
    requires Inv(s) && Live(s, pod) && Managed(pod.rec.labels)
    requires forall r | r in refs :: LiveCtr(s, r) && r.rec.pod == pod.id
    requires forall c | InPod(s, c, pod.id) :: CtrRef(c, s.ctrs[c]) in refs
    ensures var uid := pod.rec.labels[PodUid]; StatusOf(s, pod.id, PodStatus(uid, StatusMap(uid, refs)))
  {
    var uid := pod.rec.labels[PodUid];
    var names := StatusMap(uid, refs);
    forall name | name in names
      ensures InPod(s, names[name], pod.id) && Read(s.ctrs[names[name]].labels, PodContainer) == name
    {
      StatusMapIsLast(uid, refs, name);
      var i: nat :| IsLast(uid, refs, name, i);
      assert refs[i] in refs;
    }
    forall c | InPod(s, c, pod.id) && Read(s.ctrs[c].labels, PodContainer) != ""
      ensures CtrUnder(PodStatus(uid, names), Read(s.ctrs[c].labels, PodContainer), c)
    {
      var r := CtrRef(c, s.ctrs[c]);
      assert CtrFits(s, c);
      ReportableIsReported(uid, refs, r);
      assert SameName(s, names[NameOf(r)], c);
    }
  }

  /** The pod holds the same containers in both stores. */
  ghost predicate SameInside(s: Store, t: Store, p: Id) {
    forall c :: (InPod(s, c, p) <==> InPod(t, c, p)) && (InPod(s, c, p) ==> s.ctrs[c] == t.ctrs[c])
  }

  lemma SameStatus(s: Store, t: Store, p: Id, status: PodStatus)
    requires StatusOf(t, p, status) && PodOfUid(t, p, status.uid) && SamePod(s, t, p)
    requires SameInside(s, t, p)
    ensures TrueStatus(s, status)
  {
    assert StatusOf(s, p, status);
  }

  /** After the first `i` pods of the selection: what was dismissed is out, what was kept is reported. */
  ghost predicate ListedSoFar(s: Store, t: Store, sel: seq<PodRef>, i: nat, results: seq<PodStatus>, clean: bool)
    requires i <= |sel|
  {
    && SameOutside(s, t, Dismissed(s, sel[..i]))
    && Uids(results) == Reported(s, sel[..i]) && (forall status | status in results :: TrueStatus(s, status))
    && (forall p | p in sel[..i] && Orphan(s, p.id) :: p.id !in t.pods)
    && (clean ==> forall p | p in Dismissed(s, sel[..i]) :: p !in t.pods)
  }

  /** The next pod of the selection is as it was at the start of the listing. */
  lemma NextIsLive(s: Store, t: Store, sel: seq<PodRef>, i: nat)
    requires i < |sel| && SameOutside(s, t, Dismissed(s, sel[..i])) && Live(s, sel[i])
    requires forall a, b | 0 <= a < b < |sel| :: sel[a].id != sel[b].id
    ensures Live(t, sel[i]) && (Kept(t, sel[i]) <==> Kept(s, sel[i]))
    ensures Orphan(t, sel[i].id) <==> Orphan(s, sel[i].id)
    ensures SamePod(s, t, sel[i].id)
    ensures SameInside(s, t, sel[i].id)
  {
    var p, gone := sel[i].id, Dismissed(s, sel[..i]);
    assert p !in gone;
    assert SamePod(s, t, p);
    forall c
      ensures (InPod(s, c, p) <==> InPod(t, c, p)) && (InPod(s, c, p) ==> s.ctrs[c] == t.ctrs[c])
      ensures IsPauseOf(s, c, p) <==> IsPauseOf(t, c, p)
    {
      assert SameCtr(s, t, gone, c);
    }
    if c :| IsPauseOf(s, c, p) { assert IsPauseOf(t, c, p); }
    if c :| IsPauseOf(t, c, p) { assert IsPauseOf(s, c, p); }
  }

  /** What leaves all but one pod alone leaves the rest of the selection stored. */
  lemma RestIsLive(t: Store, u: Store, sel: seq<PodRef>, i: nat)
    requires i < |sel| && SameOutside(t, u, {sel[i].id}) && RestLive(t, sel, i) && Distinct(sel)
    ensures RestLive(u, sel, i + 1)
  {
    forall j | i + 1 <= j < |sel| ensures Live(u, sel[j]) { assert SamePod(t, u, sel[j].id); }
  }

  lemma KeptIsNoOrphan(s: Store, p: PodRef)
    ensures !(Kept(s, p) && Orphan(s, p.id))
  {
    assert forall c :: IsPauseOf(s, c, p.id) ==> InPod(s, c, p.id);
  }

  lemma DismissedStep(s: Store, sel: seq<PodRef>, i: nat)
    requires i < |sel|
    ensures Dismissed(s, sel[..i + 1]) == Dismissed(s, sel[..i]) + if Kept(s, sel[i]) then {} else {sel[i].id}
    ensures Reported(s, sel[..i + 1])
         == Reported(s, sel[..i]) + if Kept(s, sel[i]) then [sel[i].rec.labels[PodUid]] else []
  {
    assert sel[..i + 1] == sel[..i] + [sel[i]];
  }

  lemma UidsStep(results: seq<PodStatus>, status: PodStatus)
    ensures Uids(results + [status]) == Uids(results) + [status.uid]
  {
    assert (results + [status])[..|results|] == results;
  }

  /** What handling one listed pod promises when nothing is removed blindly. */
  ghost predicate StepPromise(t: Store, u: Store, pod: PodRef, step: ListStep, clean: bool) {
    && SameOutside(t, u, if Kept(t, pod) then {} else {pod.id})
    && (step.Listed? <==> Kept(t, pod) && !step.ListFault?)
    && (step.Listed? ==> step.status.uid == pod.rec.labels[PodUid] && StatusOf(t, pod.id, step.status))
    && (step.Skipped? && (Managed(pod.rec.labels) || clean) ==> pod.id !in u.pods)
    && (clean ==> !step.ListFault?)
  }

  /** A managed pod without a pause container was removed, or the removal failed. */
  lemma StepRemoved(t: Store, u: Store, pod: PodRef, step: ListStep, clean: bool)
    requires !HasPause(t, pod.id) && SameOutside(t, u, {pod.id}) && !step.Listed?
    requires (step.Skipped? ==> pod.id !in u.pods) && (clean ==> step.Skipped?)
    ensures StepPromise(t, u, pod, step, clean)
  {
  }

  /** A pod that is not managed was deleted, or the deletion failed. */
  lemma StepForeign(t: Store, u: Store, pod: PodRef, clean: bool)
    requires !Managed(pod.rec.labels) && SameOutside(t, u, {pod.id}) && (clean ==> pod.id !in u.pods)
    ensures StepPromise(t, u, pod, Skipped, clean)
  {
  }

  /** A pod with a pause container was reported, or a call failed. */
  lemma StepReported(t: Store, pod: PodRef, step: ListStep, clean: bool)
    requires Managed(pod.rec.labels) && HasPause(t, pod.id) && !step.Skipped? && (clean ==> !step.ListFault?)
    requires step.Listed? ==> step.status.uid == pod.rec.labels[PodUid] && StatusOf(t, pod.id, step.status)
    ensures StepPromise(t, t, pod, step, clean) && SameOutside(t, t, {pod.id})
  {
    SameOutsideRefl(t, {});
  }

  ghost predicate RestLive(t: Store, sel: seq<PodRef>, i: nat) { forall j | i <= j < |sel| :: Live(t, sel[j]) }

  ghost predicate Distinct(sel: seq<PodRef>) { forall a, b | 0 <= a < b < |sel| :: sel[a].id != sel[b].id }

  /** Handling the next pod keeps what the listing has promised so far. */
  lemma ListStepKeeps(s: Store, t: Store, u: Store, sel: seq<PodRef>, i: nat, results: seq<PodStatus>, step: ListStep,
                      clean: bool, now: bool)
    requires i < |sel| && Distinct(sel) && Live(s, sel[i])
    requires ListedSoFar(s, t, sel, i, results, clean) && NoNewPods(t, u) && StepPromise(t, u, sel[i], step, now)
    ensures SameOutside(s, u, Dismissed(s, sel[..i + 1]))
    ensures var all := if step.Listed? then results + [step.status] else results;
            !step.ListFault? ==> ListedSoFar(s, u, sel, i + 1, all, clean && now)
  {
    var pod := sel[i];
    NextIsLive(s, t, sel, i);
    DismissedStep(s, sel, i);
    SameOutsideTrans(s, t, u, Dismissed(s, sel[..i]), if Kept(s, pod) then {} else {pod.id});
    if step.Listed? {
      SameStatus(s, t, pod.id, step.status);
      UidsStep(results, step.status);
    }
    if !step.ListFault? {
      forall p | p in sel[..i + 1] && Orphan(s, p.id) ensures p.id !in u.pods {
        assert p in sel[..i] || p == pod;
        assert p == pod ==> !Kept(s, pod) by { KeptIsNoOrphan(s, p); }
      }
    }
  }

  /** What a listing without client faults comes to. */
  ghost predicate ListedClean(s: Store, t: Store, filters: LabelSet, sel: seq<PodRef>, uids: seq<string>) {
    && EnumeratesPods(s.pods, filters, sel) && uids == Reported(s, sel)
    && SameOutside(s, t, Dismissed(s, sel)) && NoNewPods(s, t)
    && forall p | p in Dismissed(s, sel) :: p !in t.pods
  }

  lemma {:induction false} ReportedUids(s: Store, sel: seq<PodRef>, uid: string)
    ensures uid in Reported(s, sel) <==> exists p :: p in sel && Kept(s, p) && p.rec.labels[PodUid] == uid
  {
    if sel != [] {
      var n := |sel| - 1;
      assert sel == sel[..n] + [sel[n]];
      ReportedUids(s, sel[..n], uid);
    }
  }

  /** Listing twice: the second listing dismisses nothing, changes nothing and reports the same uids. */
  lemma ListingAgain(s: Store, t: Store, u: Store, filters: LabelSet,
                     sel: seq<PodRef>, sel': seq<PodRef>, uids: seq<string>, uids': seq<string>)
    requires ListedClean(s, t, filters, sel, uids) && ListedClean(t, u, filters, sel', uids')
    ensures Dismissed(t, sel') == {} && SameOutside(t, u, {})
    ensures forall uid :: uid in uids <==> uid in uids'
  {
    forall p | p in sel' ensures p in sel && Kept(s, p) && Kept(t, p) {
      StaysKept(s, t, filters, sel, p);
    }
    forall p | p in sel && Kept(s, p) ensures p in sel' {
      assert p.id !in Dismissed(s, sel);
      assert SamePod(s, t, p.id);
    }
    forall uid ensures uid in uids <==> uid in uids' {
      ReportedUids(s, sel, uid);
      ReportedUids(t, sel', uid);
    }
  }

  lemma StaysKept(s: Store, t: Store, filters: LabelSet, sel: seq<PodRef>, p: PodRef)
    requires EnumeratesPods(s.pods, filters, sel) && SameOutside(s, t, Dismissed(s, sel)) && NoNewPods(s, t)
    requires (forall q | q in Dismissed(s, sel) :: q !in t.pods) && Live(t, p) && Matches(filters, p.rec.labels)
    ensures p in sel && Kept(s, p) && Kept(t, p)
  {
    assert Live(s, p);
    assert PodRef(p.id, s.pods[p.id]) in sel;
    assert p.id !in Dismissed(s, sel);
    var c :| IsPauseOf(s, c, p.id);
    assert SameCtr(s, t, Dismissed(s, sel), c);
    assert IsPauseOf(t, c, p.id);
  }
}
