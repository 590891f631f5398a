/** Handles on pods and containers, and the status map that is reported for a pod. */
module Status {
  import opened Labels
  import opened PodStore

  /** Handles as the client library hands them out: the id and the unchanging configuration. */
  datatype PodRef = PodRef(id: Id, rec: PodRec)
  datatype CtrRef = CtrRef(id: Id, rec: CtrRec)

  datatype PodStatus = PodStatus(uid: string, containers: map<string, Id>)

  /** A listed container that the status of `uid` may report. */
  predicate Reportable(uid: string, r: CtrRef) {
    Read(r.rec.labels, PodContainer) != "" && Read(r.rec.labels, PodUid) == uid
  }

  function NameOf(r: CtrRef): string { Read(r.rec.labels, PodContainer) }

  /** The status map after going through `refs` from first to last. */
  function StatusMap(uid: string, refs: seq<CtrRef>): map<string, Id> {
    if refs == [] then map[]
    else
      var before := StatusMap(uid, refs[..|refs| - 1]);
      var r := refs[|refs| - 1];
      if Reportable(uid, r) then before[NameOf(r) := r.id] else before
  }

  /** The status that is reported for the pod of a pause container. */
  function StatusFrom(pause: CtrRef, refs: seq<CtrRef>): PodStatus {
    var uid := Read(pause.rec.labels, PodUid);
    PodStatus(uid, StatusMap(uid, refs))
  }

  /** `i` is the last place in `refs` of a reportable container called `name`. */
  predicate IsLast(uid: string, refs: seq<CtrRef>, name: string, i: nat) {
    && i < |refs| && Reportable(uid, refs[i]) && NameOf(refs[i]) == name
    && forall j | i < j < |refs| && Reportable(uid, refs[j]) :: NameOf(refs[j]) != name
  }

  /** The keys of the status map are exactly the names of the reportable containers, and each name
      stands for the last container that carries it. */
  lemma {:induction false} StatusMapIsLast(uid: string, refs: seq<CtrRef>, name: string)
    ensures name in StatusMap(uid, refs) <==> exists i: nat :: IsLast(uid, refs, name, i)
    ensures forall i: nat | IsLast(uid, refs, name, i) ::
              name in StatusMap(uid, refs) && StatusMap(uid, refs)[name] == refs[i].id
  {
    if refs != [] {
      var n := |refs| - 1;
      var before := refs[..n];
      StatusMapIsLast(uid, before, name);
      if Reportable(uid, refs[n]) && NameOf(refs[n]) == name {
        assert IsLast(uid, refs, name, n);
      } else {
        forall i: nat ensures IsLast(uid, refs, name, i) <==> IsLast(uid, before, name, i) {
          if IsLast(uid, before, name, i) {
            forall j | i < j < |refs| && Reportable(uid, refs[j]) ensures NameOf(refs[j]) != name {
              assert j < n ==> before[j] == refs[j];
            }
          }
          if IsLast(uid, refs, name, i) {
            forall j | i < j < |before| && Reportable(uid, before[j]) ensures NameOf(before[j]) != name {
              assert before[j] == refs[j];
            }
          }
        }
      }
    }
  }

  lemma {:induction false} ReportableIsReported(uid: string, refs: seq<CtrRef>, r: CtrRef)
    requires r in refs && Reportable(uid, r)
    ensures NameOf(r) in StatusMap(uid, refs)
  {
    var n := |refs| - 1;
    if r != refs[n] {
      assert refs == refs[..n] + [refs[n]];
      ReportableIsReported(uid, refs[..n], r);
    }
  }

  function CountReportable(uid: string, refs: seq<CtrRef>): nat {
    if refs == [] then 0
    else CountReportable(uid, refs[..|refs| - 1]) + if Reportable(uid, refs[|refs| - 1]) then 1 else 0
  }

  ghost predicate NamesApart(uid: string, refs: seq<CtrRef>) {
    forall i, j | 0 <= i < j < |refs| && Reportable(uid, refs[i]) && Reportable(uid, refs[j]) ::
      NameOf(refs[i]) != NameOf(refs[j])
  }

  /** With distinct names nothing is overwritten: one entry for every reportable container. */
  lemma {:induction false} StatusMapSize(uid: string, refs: seq<CtrRef>)
    requires NamesApart(uid, refs)
    ensures |StatusMap(uid, refs)| == CountReportable(uid, refs)
  {
    if refs != [] {
      var n := |refs| - 1;
      var before := refs[..n];
      StatusMapSize(uid, before);
      var name := NameOf(refs[n]);
      StatusMapIsLast(uid, before, name);
      if Reportable(uid, refs[n]) {
        assert name !in StatusMap(uid, before) by {
          forall i: nat ensures !IsLast(uid, before, name, i) {
            assert i < n ==> before[i] == refs[i];
          }
        }
      }
    }
  }
}
