/** Label sets of pods and containers, and the matching on which every lookup rests.

    Keys are the seven reserved label keys and everything else; `KeyText` gives the texts. */
module Labels {

  datatype Key =
    | PodUid
    | PodNamespace
    | PodName
    | HostNetwork
    | PodContainer
    | ContainerRole
    | PodRole
    | Other(text: string)

  type LabelSet = map<Key, string>

  const INFRA := "infra"
  const WORK := "work"
  const PAUSE := "_pause"
  const ABBOT := "abbot"
  const ROLE_ABBOT := "Abbot"

  /** What a container of an ensure command asks for. */
  datatype CtrSpec = CtrSpec(name: string, hook: bool, remoteVolumes: set<string>)

  datatype EnsureCmd = EnsureCmd(
    uid: string,
    namespace: string,
    name: string,
    labels: LabelSet,
    hostNetwork: bool,
    wait: bool,
    containers: seq<CtrSpec>)

  function KeyText(k: Key): string {
    match k
    case PodUid => "ctr.arhat.dev/pod-uid"
    case PodNamespace => "ctr.arhat.dev/pod-namespace"
    case PodName => "ctr.arhat.dev/pod-name"
    case HostNetwork => "config.ctr.arhat.dev/host-network"
    case PodContainer => "ctr.arhat.dev/pod-container"
    case ContainerRole => "ctr.arhat.dev/pod-container-role"
    case PodRole => "arhat.dev/role"
    case Other(text) => text
  }

  /** The reserved keys have pairwise different texts, so treating them as different keys is faithful. */
  lemma ReservedKeysDiffer(a: Key, b: Key)
    requires !a.Other? && !b.Other? && a != b
    ensures KeyText(a) != KeyText(b)
  {
    assert KeyText(PodNamespace)[18] == 'n';
    assert KeyText(PodContainer)[18] == 'c';
  }

  /** A map read as the source reads it: a missing key gives the empty string. */
  function Read(labels: LabelSet, k: Key): string {
    if k in labels then labels[k] else ""
  }

  /** The exact meaning of label matching: enough labels, and every filter value is what is read. */
  predicate Matches(filters: LabelSet, labels: LabelSet) {
    |labels| >= |filters| && forall k | k in filters :: Read(labels, k) == filters[k]
  }

  predicate Submap(filters: LabelSet, labels: LabelSet) {
    forall k | k in filters :: k in labels && labels[k] == filters[k]
  }

  /** The matching loop: it visits the filters in any order and leaves at the first mismatch. */
  method FilterLabels(filters: LabelSet, labels: LabelSet) returns (matched: bool)
    ensures matched == Matches(filters, labels)
  {
    if |labels| >= |filters| {
      matched := true;
      var todo := filters.Keys;
      while todo != {}
        invariant todo <= filters.Keys
        invariant matched
        invariant forall k | k in filters && k !in todo :: Read(labels, k) == filters[k]
        decreases todo
      {
        var k :| k in todo;
        todo := todo - {k};
        if Read(labels, k) != filters[k] {
          matched := false;
          break;
        }
      }
    } else {
      matched := false;
    }
  }

  /** A set that contains another has at least as many elements. */
  lemma {:induction false} SubsetCardinality<T>(a: set<T>, b: set<T>)
    requires a <= b
    ensures |a| <= |b|
  {
    if a != {} {
      var x :| x in a;
      SubsetCardinality(a - {x}, b - {x});
    }
  }

  /** For filters without empty values, matching is inclusion: the length shortcut never
      rejects a filter set that is included in the labels. */
  lemma MatchesIsInclusion(filters: LabelSet, labels: LabelSet)
    requires forall k | k in filters :: filters[k] != ""
    ensures Matches(filters, labels) <==> Submap(filters, labels)
  {
    if Submap(filters, labels) {
      assert filters.Keys <= labels.Keys;
      SubsetCardinality(filters.Keys, labels.Keys);
    }
  }

  /** With an empty value matching is not inclusion: it accepts labels that lack the key. */
  lemma EmptyValueMatchesMissingKey()
    ensures
      var filters, labels := map[PodUid := ""], map[PodName := "a"];
      Matches(filters, labels) && !Submap(filters, labels)
  {
    var filters: LabelSet, labels: LabelSet := map[PodUid := ""], map[PodName := "a"];
    assert PodUid in filters && PodUid !in labels;
  }

  predicate Managed(l: LabelSet) { PodUid in l }

  predicate IsHostNetwork(l: LabelSet) { HostNetwork in l }

  predicate IsAbbotPod(l: LabelSet) { IsHostNetwork(l) && Read(l, PodRole) == ROLE_ABBOT }

  predicate IsPauseContainer(l: LabelSet) { Read(l, PodContainer) == PAUSE }

  predicate IsInfra(l: LabelSet) { Read(l, ContainerRole) == INFRA }

  function AbbotMatchLabels(): LabelSet {
    map[ContainerRole := WORK, PodContainer := ABBOT, PodRole := ROLE_ABBOT, HostNetwork := "true"]
  }

  /** The containers that the abbot lookup finds. */
  predicate IsAbbotContainer(l: LabelSet) {
    && Read(l, ContainerRole) == WORK
    && Read(l, PodContainer) == ABBOT
    && Read(l, PodRole) == ROLE_ABBOT
    && Read(l, HostNetwork) == "true"
  }

  lemma AbbotLookupMeaning(l: LabelSet)
    ensures Matches(AbbotMatchLabels(), l) <==> IsAbbotContainer(l)
    ensures IsAbbotContainer(l) ==> IsAbbotPod(l)
  {
    var f := AbbotMatchLabels();
    assert forall k | k in f :: f[k] != "";
    MatchesIsInclusion(f, l);
    assert ContainerRole in f && PodContainer in f && PodRole in f && HostNetwork in f;
  }

  /** Labels of one container of a pod: the command's own labels, overridden by the defaults. */
  function ContainerLabels(o: EnsureCmd, container: string): LabelSet {
    var defaults: LabelSet := map[
      PodUid := o.uid,
      PodNamespace := o.namespace,
      PodName := o.name,
      PodContainer := container,
      ContainerRole := if container == PAUSE then INFRA else WORK];
    var merged := o.labels + defaults;
    if o.hostNetwork then merged[HostNetwork := "true"] else merged
  }

  /** The part of a container's labels that it shares with its pod. */
  function PodPart(l: LabelSet): LabelSet { l - {PodContainer, ContainerRole} }

  function PodLabels(o: EnsureCmd): LabelSet { PodPart(ContainerLabels(o, PAUSE)) }

  function PodFullName(o: EnsureCmd): string { o.namespace + "." + o.name }

  /** The full name of a pod as its labels have it. */
  function NameIn(pod: LabelSet): string { Read(pod, PodNamespace) + "." + Read(pod, PodName) }

  /** The full name of a container of a pod. */
  function CtrName(pod: string, container: string): string { pod + "." + container }

  /** Container name as built from a command. */
  function FullName(namespace: string, name: string, container: string): string {
    CtrName(namespace + "." + name, container)
  }

  /** The caller's own labels arrive at every container and at the pod, except where a reserved key overrides them. */
  lemma OwnLabelsArrive(o: EnsureCmd, container: string, k: Key)
    requires k in o.labels && k !in {PodUid, PodNamespace, PodName, PodContainer, ContainerRole}
    requires k == HostNetwork ==> !o.hostNetwork
    ensures k in ContainerLabels(o, container) && ContainerLabels(o, container)[k] == o.labels[k]
    ensures k in PodLabels(o) && PodLabels(o)[k] == o.labels[k]
  {
  }

  /** What the engine needs of the labels of a container and of the pod that holds it. They share the uid. A pause
      container says what its pod says about the host network and the abbot, because deletions read that off it. An
      abbot container sits in an abbot pod, because the guard protects no other. All else is the caller's own. */
  predicate Hosts(pod: LabelSet, l: LabelSet) {
    && Managed(pod) && Managed(l) && l[PodUid] == pod[PodUid]
    && (IsInfra(l) <==> IsPauseContainer(l))
    && (IsPauseContainer(l) ==> (IsHostNetwork(l) <==> IsHostNetwork(pod)) && (IsAbbotPod(l) <==> IsAbbotPod(pod)))
    && (IsAbbotContainer(l) ==> IsAbbotPod(pod))
  }

  /** A pod with these labels can take the containers of the command: it has its uid and full name, and if an abbot
      container is among them it is an abbot pod. */
  predicate Suits(o: EnsureCmd, pod: LabelSet) {
    && Managed(pod) && pod[PodUid] == o.uid && NameIn(pod) == PodFullName(o)
    && forall spec | spec in o.containers :: IsAbbotContainer(ContainerLabels(o, spec.name)) ==> IsAbbotPod(pod)
  }

  lemma HostsCtr(o: EnsureCmd, pod: LabelSet, container: string)
    requires Managed(pod) && pod[PodUid] == o.uid && container != PAUSE
    requires IsAbbotContainer(ContainerLabels(o, container)) ==> IsAbbotPod(pod)
    ensures Hosts(pod, ContainerLabels(o, container))
  {
  }

  /** The pod that a command creates can take all its containers, the pause container included. */
  lemma OwnPodSuits(o: EnsureCmd)
    ensures Suits(o, PodLabels(o)) && Hosts(PodLabels(o), ContainerLabels(o, PAUSE))
  {
    var pod := PodLabels(o);
    assert PodUid in pod && PodNamespace in pod && PodName in pod;
    forall spec | spec in o.containers && IsAbbotContainer(ContainerLabels(o, spec.name)) ensures IsAbbotPod(pod) {
      PodPartIsShared(o, spec.name);
    }
  }

  /** Every container of one command has the pod's labels as its pod part. */
  lemma PodPartIsShared(o: EnsureCmd, container: string)
    ensures PodPart(ContainerLabels(o, container)) == PodLabels(o)
  {
    assert PodPart(ContainerLabels(o, container)).Keys == PodLabels(o).Keys;
  }
}
