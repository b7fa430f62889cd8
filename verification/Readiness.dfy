// Startup lead time of the target: which template revision is current, how long
// its pods took to become Ready, and what is remembered of it in the status
// (internal/controller/prediction.go).
module Readiness {
  import opened Values

  const HASH_LABEL := "pod-template-hash"

  datatype Owner = Owner(kind: string, name: string, uid: string)

  // One pod condition: is it of type Ready, is its status True, since when.
  datatype Condition = Condition(ready: bool, isTrue: bool, since: int)

  datatype ContainerStatus = ContainerStatus(name: string, restarts: int)

  datatype Pod = Pod(
    deleting: bool,
    labels: map<string, string>,
    controller: Option<Owner>,
    createdAt: int,
    conditions: seq<Condition>,
    containers: seq<string>,
    statuses: seq<ContainerStatus>)

  // A pod template: its labels, and everything else.
  datatype Template = Template(labels: map<string, string>, rest: string)

  datatype ReplicaSet = ReplicaSet(controller: Option<Owner>, uid: string, labels: map<string, string>,
    template: Template)

  datatype Deployment = Deployment(name: string, uid: string, generation: int, observedGeneration: int,
    template: Template)

  datatype Revision = Revision(identity: string, uid: string)

  // A missing label reads as the empty string.
  function Label(labels: map<string, string>, key: string): string {
    if key in labels then labels[key] else ""
  }

  // ----- The current template revision -----

  predicate OwnedByDeployment(d: Deployment, rs: ReplicaSet) {
    rs.controller == Some(Owner("Deployment", d.name, d.uid))
  }

  predicate MatchesTemplate(d: Deployment, rs: ReplicaSet) {
    d.template.labels - {HASH_LABEL} == rs.template.labels - {HASH_LABEL} && d.template.rest == rs.template.rest
  }

  predicate Current(d: Deployment, rs: ReplicaSet) {
    OwnedByDeployment(d, rs) && MatchesTemplate(d, rs)
  }

  predicate Consistent(rs: ReplicaSet) {
    Label(rs.labels, HASH_LABEL) != "" && Label(rs.template.labels, HASH_LABEL) == Label(rs.labels, HASH_LABEL)
  }

  predicate Observed(d: Deployment) {
    d.uid != "" && d.generation != 0 && d.observedGeneration >= d.generation
  }

  predicate SameRevision(rs: ReplicaSet, revision: Revision) {
    Consistent(rs) && Label(rs.labels, HASH_LABEL) == revision.identity && rs.uid == revision.uid
  }

  // The revision every matching ReplicaSet, and at least one, agrees on.
  predicate Identifies(d: Deployment, sets: seq<ReplicaSet>, revision: Revision) {
    && Observed(d)
    && (exists rs :: rs in sets && Current(d, rs))
    && (forall rs :: rs in sets && Current(d, rs) ==> SameRevision(rs, revision))
  }

  lemma RevisionUnique(d: Deployment, sets: seq<ReplicaSet>, a: Revision, b: Revision)
    requires Identifies(d, sets, a) && Identifies(d, sets, b)
    ensures a == b && a.identity != ""
  {
    var rs :| rs in sets && Current(d, rs);
    assert SameRevision(rs, a) && SameRevision(rs, b);
  }

  ghost function RevisionOf(d: Deployment, sets: seq<ReplicaSet>): (r: Option<Revision>)
    ensures forall revision :: r == Some(revision) <==> Identifies(d, sets, revision)
  {
    if revision :| Identifies(d, sets, revision) then
      assert forall other :: Identifies(d, sets, other) ==> other == revision by {
        forall other | Identifies(d, sets, other)
          ensures other == revision
        {
          RevisionUnique(d, sets, other, revision);
        }
      }
      Some(revision)
    else None
  }

  // The scan over the listed ReplicaSets; None stands for any of its errors.
  method CurrentTargetTemplateRevision(d: Deployment, sets: seq<ReplicaSet>) returns (r: Option<Revision>)
    ensures r == RevisionOf(d, sets)
  {
    if d.uid == "" || d.generation == 0 || d.observedGeneration < d.generation {
      return None;
    }
    var matched: Option<ReplicaSet> := None;
    for i := 0 to |sets|
      invariant matched.None? ==> forall j :: 0 <= j < i ==> !Current(d, sets[j])
      invariant matched.Some? ==> matched.value in sets && Current(d, matched.value) && Consistent(matched.value)
      invariant matched.Some? ==> forall j :: 0 <= j < i && Current(d, sets[j]) ==>
        SameRevision(sets[j], RevisionIn(matched.value))
    {
      var rs := sets[i];
      if rs.controller.None? || rs.controller.value.kind != "Deployment" || rs.controller.value.name != d.name
        || rs.controller.value.uid != d.uid {
        continue;
      }
      if !MatchesTemplate(d, rs) {
        continue;
      }
      var hash := Label(rs.labels, HASH_LABEL);
      if hash == "" || Label(rs.template.labels, HASH_LABEL) != hash {
        NotIdentified(d, sets, rs, rs);
        return None;
      }
      if matched.Some? && (Label(matched.value.labels, HASH_LABEL) != hash || matched.value.uid != rs.uid) {
        NotIdentified(d, sets, rs, matched.value);
        return None;
      }
      matched := Some(rs);
    }
    if matched.None? {
      return None;
    }
    r := Some(RevisionIn(matched.value));
    assert Identifies(d, sets, r.value);
  }

  function RevisionIn(rs: ReplicaSet): Revision {
    Revision(Label(rs.labels, HASH_LABEL), rs.uid)
  }

  lemma NotIdentified(d: Deployment, sets: seq<ReplicaSet>, a: ReplicaSet, b: ReplicaSet)
    requires a in sets && Current(d, a) && b in sets && Current(d, b)
    requires !Consistent(a) || RevisionIn(a) != RevisionIn(b)
    ensures RevisionOf(d, sets) == None
  {
    forall revision
      ensures !Identifies(d, sets, revision)
    {
    }
  }

  // ----- Pods -----

  predicate IsReady(pod: Pod) {
    exists c :: c in pod.conditions && c.ready && c.isTrue
  }

  // The first Ready condition that says since when.
  function ReadyAt(conditions: seq<Condition>): Option<int> {
    if |conditions| == 0 then None
    else if conditions[0].ready && conditions[0].isTrue && conditions[0].since != ZERO_TIME
    then Some(conditions[0].since)
    else ReadyAt(conditions[1..])
  }

  // The last status reported under a name.
  function StatusOf(statuses: seq<ContainerStatus>, name: string): Option<int> {
    if |statuses| == 0 then None
    else if Last(statuses).name == name then Some(Last(statuses).restarts)
    else StatusOf(statuses[..|statuses| - 1], name)
  }

  predicate NeverRestarted(pod: Pod) {
    pod.containers != [] && forall c :: c in pod.containers ==> StatusOf(pod.statuses, c) == Some(0)
  }

  method RegularContainersHaveNeverRestarted(pod: Pod) returns (ok: bool)
    ensures ok <==> NeverRestarted(pod)
  {
    if |pod.containers| == 0 {
      return false;
    }
    var statuses: map<string, int> := map[];
    for i := 0 to |pod.statuses|
      invariant forall n :: StatusOf(pod.statuses[..i], n) == if n in statuses then Some(statuses[n]) else None
    {
      assert pod.statuses[..i + 1][..i] == pod.statuses[..i];
      statuses := statuses[pod.statuses[i].name := pod.statuses[i].restarts];
    }
    assert pod.statuses[..|pod.statuses|] == pod.statuses;
    for i := 0 to |pod.containers|
      invariant forall j :: 0 <= j < i ==> StatusOf(pod.statuses, pod.containers[j]) == Some(0)
    {
      if pod.containers[i] !in statuses || statuses[pod.containers[i]] != 0 {
        assert pod.containers[i] in pod.containers;
        return false;
      }
    }
    return true;
  }

  // Counted as Ready.
  function Serving(): Pod -> bool {
    (pod: Pod) => !pod.deleting && IsReady(pod)
  }

  // A pod whose startup can be measured for the revision.
  predicate Measurable(pod: Pod, revision: Revision) {
    && !pod.deleting && IsReady(pod)
    && Label(pod.labels, HASH_LABEL) == revision.identity
    && pod.controller.Some? && pod.controller.value.kind == "ReplicaSet" && pod.controller.value.uid == revision.uid
    && ReadyAt(pod.conditions).Some? && pod.createdAt != ZERO_TIME
    && pod.createdAt <= ReadyAt(pod.conditions).value
    && NeverRestarted(pod)
  }

  function Eligible(revision: Revision): Pod -> bool {
    (pod: Pod) => Measurable(pod, revision)
  }

  datatype Startup = Startup(lead: int, readyAt: int)

  function StartupOf(pod: Pod): Startup
    requires ReadyAt(pod.conditions).Some?
  {
    Startup(ReadyAt(pod.conditions).value - pod.createdAt, ReadyAt(pod.conditions).value)
  }

  predicate Longer(a: Startup, b: Startup) {
    a.lead > b.lead || (a.lead == b.lead && a.readyAt > b.readyAt)
  }

  // The longest startup, the later one among equals.
  function Longest(pods: seq<Pod>, revision: Revision): Option<Startup> {
    if |pods| == 0 then None
    else
      var best, pod := Longest(pods[..|pods| - 1], revision), Last(pods);
      if Measurable(pod, revision) && (best.None? || Longer(StartupOf(pod), best.value))
      then Some(StartupOf(pod))
      else best
  }

  predicate IsLongest(pods: seq<Pod>, revision: Revision, s: Startup) {
    && (exists pod :: pod in pods && Measurable(pod, revision) && StartupOf(pod) == s)
    && (forall pod :: pod in pods && Measurable(pod, revision) ==> !Longer(StartupOf(pod), s))
  }

  lemma {:induction false} LongestIsMaximal(pods: seq<Pod>, revision: Revision)
    ensures Longest(pods, revision).None? ==> forall pod :: pod in pods ==> !Measurable(pod, revision)
    ensures Longest(pods, revision).Some? ==> IsLongest(pods, revision, Longest(pods, revision).value)
    ensures Longest(pods, revision).Some? ==> Longest(pods, revision).value.lead >= 0
  {
    if |pods| > 0 {
      var front := pods[..|pods| - 1];
      LongestIsMaximal(front, revision);
      assert pods == front + [Last(pods)];
      assert forall pod :: pod in pods <==> pod in front || pod == Last(pods);
      if Measurable(Last(pods), revision) {
        assert Last(pods) in pods;
      }
    }
  }

  lemma LongestUnique(pods: seq<Pod>, revision: Revision, a: Startup, b: Startup)
    requires IsLongest(pods, revision, a) && IsLongest(pods, revision, b)
    ensures a == b
  {
  }

  // ----- The observation of one step -----

  // RevisionError and TemplateIdentity are `revision`: None for an error.
  datatype Observation = Observation(ready: int32, revision: Option<Revision>, startup: Option<Startup>, samples: int32)

  const NOTHING_READY := Observation(0, None, None, 0)

  // int32 counters wrap around.
  function Count32(n: nat): int32 {
    (n + 0x8000_0000) % 0x1_0000_0000 - 0x8000_0000
  }

  lemma CountOneMore(n: nat)
    ensures Count32(n + 1) == Add32(Count32(n), 1)
  {
  }

  // What the cluster answers: None where a read fails or the selector is unusable.
  datatype TargetView = TargetView(deployment: Deployment, pods: Option<seq<Pod>>, replicaSets: Option<seq<ReplicaSet>>)

  ghost function RevisionSeen(view: TargetView): Option<Revision> {
    if view.replicaSets.None? then None else RevisionOf(view.deployment, view.replicaSets.value)
  }

  ghost function ReadinessOf(view: TargetView): Option<Observation> {
    if view.pods.None? then None
    else
      var pods, revision := view.pods.value, RevisionSeen(view);
      var ready := Count32(|Filter(pods, Serving())|);
      if revision.None? then Some(Observation(ready, None, None, 0))
      else Some(Observation(ready, revision, Longest(pods, revision.value),
        Count32(|Filter(pods, Eligible(revision.value))|)))
  }

  method CountReady(pods: seq<Pod>) returns (ready: int32)
    ensures ready == Count32(|Filter(pods, Serving())|)
  {
    ready := 0;
    for i := 0 to |pods|
      invariant ready == Count32(|Filter(pods[..i], Serving())|)
    {
      assert pods[..i + 1][..i] == pods[..i];
      if pods[i].deleting {
        continue;
      }
      if IsReady(pods[i]) {
        CountOneMore(|Filter(pods[..i], Serving())|);
        ready := Add32(ready, 1);
      }
    }
    assert pods[..|pods|] == pods;
  }

  method MeasureStartup(pods: seq<Pod>, revision: Revision) returns (startup: Option<Startup>, samples: int32)
    ensures startup == Longest(pods, revision)
    ensures samples == Count32(|Filter(pods, Eligible(revision))|)
  {
    startup, samples := None, 0;
    for i := 0 to |pods|
      invariant startup == Longest(pods[..i], revision)
      invariant samples == Count32(|Filter(pods[..i], Eligible(revision))|)
    {
      var pod := pods[i];
      assert pods[..i + 1][..i] == pods[..i];
      CountOneMore(|Filter(pods[..i], Eligible(revision))|);
      if pod.deleting || !IsReady(pod) || Label(pod.labels, HASH_LABEL) != revision.identity
         || pod.controller.None? || pod.controller.value.kind != "ReplicaSet"
         || pod.controller.value.uid != revision.uid {
        assert !Measurable(pod, revision);
        continue;
      }
      var readyAt := ReadyAt(pod.conditions);
      var neverRestarted := RegularContainersHaveNeverRestarted(pod);
      if readyAt.None? || pod.createdAt == ZERO_TIME || readyAt.value < pod.createdAt || !neverRestarted {
        assert !Measurable(pod, revision);
        continue;
      }
      assert Measurable(pod, revision);
      var lead := readyAt.value - pod.createdAt;
      samples := Add32(samples, 1);
      if startup.None? || lead > startup.value.lead
        || (lead == startup.value.lead && readyAt.value > startup.value.readyAt) {
        startup := Some(Startup(lead, readyAt.value));
      }
    }
    assert pods[..|pods|] == pods;
  }

  method TargetReadiness(view: TargetView) returns (readiness: Option<Observation>)
    ensures readiness == ReadinessOf(view)
  {
    if view.pods.None? {
      return None;
    }
    var pods := view.pods.value;
    var ready := CountReady(pods);
    var revision: Option<Revision> := None;
    if view.replicaSets.Some? {
      revision := CurrentTargetTemplateRevision(view.deployment, view.replicaSets.value);
    }
    if revision.None? {
      return Some(Observation(ready, None, None, 0));
    }
    var startup, samples := MeasureStartup(pods, revision.value);
    return Some(Observation(ready, revision, startup, samples));
  }

  // Neither the order in which pods are listed nor that of the ReplicaSets can
  // change the observation.
  lemma ReadinessIsOrderIndependent(view: TargetView, pods: seq<Pod>, sets: seq<ReplicaSet>)
    requires view.pods.Some? && multiset(view.pods.value) == multiset(pods)
    requires view.replicaSets.Some? && multiset(view.replicaSets.value) == multiset(sets)
    ensures ReadinessOf(view) == ReadinessOf(view.(pods := Some(pods), replicaSets := Some(sets)))
  {
    forall rs
      ensures rs in view.replicaSets.value <==> rs in sets
    {
      PermutationMember(view.replicaSets.value, sets, rs);
    }
    assert forall revision :: Identifies(view.deployment, view.replicaSets.value, revision) <==>
      Identifies(view.deployment, sets, revision);
    SameRevisionSeen(view.deployment, view.replicaSets.value, sets);
    FilterPermutation(view.pods.value, pods, Serving());
    if RevisionSeen(view).Some? {
      FilterPermutation(view.pods.value, pods, Eligible(RevisionSeen(view).value));
      LongestPermutation(view.pods.value, pods, RevisionSeen(view).value);
    }
  }

  lemma SameRevisionSeen(d: Deployment, sets: seq<ReplicaSet>, other: seq<ReplicaSet>)
    requires forall revision :: Identifies(d, sets, revision) <==> Identifies(d, other, revision)
    ensures RevisionOf(d, sets) == RevisionOf(d, other)
  {
    if RevisionOf(d, sets).Some? {
      assert Identifies(d, other, RevisionOf(d, sets).value);
    } else if RevisionOf(d, other).Some? {
      assert Identifies(d, sets, RevisionOf(d, other).value);
    }
  }

  lemma LongestPermutation(pods: seq<Pod>, other: seq<Pod>, revision: Revision)
    requires multiset(pods) == multiset(other)
    ensures Longest(pods, revision) == Longest(other, revision)
  {
    LongestIsMaximal(pods, revision);
    LongestIsMaximal(other, revision);
    forall pod
      ensures pod in pods <==> pod in other
    {
      PermutationMember(pods, other, pod);
    }
    if Longest(pods, revision).Some? && Longest(other, revision).Some? {
      assert IsLongest(other, revision, Longest(pods, revision).value);
      LongestUnique(other, revision, Longest(pods, revision).value, Longest(other, revision).value);
    }
  }

  // ----- Resolving and remembering the lead time -----

  // The learned triple of the status.
  datatype Learned = Learned(leadSeconds: Option<Float>, observedAt: Option<int>, identity: string)

  const NOTHING_LEARNED := Learned(None, None, "")

  datatype Source = Unavailable | CurrentFreshSample | PersistedLearnedSample

  datatype Evidence = Evidence(source: Source, lead: int, identity: string, observedAt: int, persist: bool)

  function NoEvidence(identity: string): Evidence {
    Evidence(Unavailable, 0, identity, ZERO_TIME, false)
  }

  function IdentityOf(o: Observation): string {
    if o.revision.Some? then o.revision.value.identity else ""
  }

  // time.Duration(seconds * float64(time.Second)) truncates.
  function Nanoseconds(seconds: real): int {
    (seconds * 1_000_000_000.0).Floor
  }

  function ResolveReadinessLead(o: Observation, learned: Learned): Evidence {
    var identity := IdentityOf(o);
    if o.ready <= 0 then NoEvidence(identity)
    else if o.revision.None? || identity == "" then NoEvidence(identity)
    else if o.startup.Some? && o.startup.value.lead >= 0 && o.startup.value.readyAt != ZERO_TIME then
      Evidence(CurrentFreshSample, o.startup.value.lead, identity, o.startup.value.readyAt, true)
    else if learned.leadSeconds.Some? && learned.observedAt.Some? && learned.observedAt.value != ZERO_TIME
            && learned.identity == identity && FiniteNonnegative(learned.leadSeconds.value) then
      Evidence(PersistedLearnedSample, Nanoseconds(learned.leadSeconds.value.v), identity, learned.observedAt.value,
        false)
    else NoEvidence(identity)
  }

  function Persisted(learned: Learned, e: Evidence): Learned {
    if e.source != CurrentFreshSample || !e.persist || e.identity == "" || e.observedAt == ZERO_TIME then learned
    else Learned(Some(Finite(Seconds(e.lead))), Some(e.observedAt), e.identity)
  }

  lemma SecondsAndBack(lead: int)
    ensures Nanoseconds(Seconds(lead)) == lead
  {
    assert Seconds(lead) * 1_000_000_000.0 == lead as real;
  }

  // Persist, then resolve without a new sample: the lead that was used comes
  // back, with its timestamp, for as long as the same revision is current; for
  // any other revision nothing comes back.
  lemma PersistThenResolve(o: Observation, learned: Learned, later: Observation)
    requires ResolveReadinessLead(o, learned).source != Unavailable
    requires later.ready > 0 && later.revision.Some? && later.startup.None?
    ensures
      var used := ResolveReadinessLead(o, learned);
      var again := ResolveReadinessLead(later, Persisted(learned, used));
      && (IdentityOf(later) == used.identity ==>
          again.source == PersistedLearnedSample && again.lead == used.lead && again.observedAt == used.observedAt)
      && (IdentityOf(later) != used.identity ==> again.source == Unavailable)
  {
    var used := ResolveReadinessLead(o, learned);
    SecondsAndBack(used.lead);
  }

  // Available evidence always belongs to the identified revision, comes with a
  // lead that is not negative, and only a fresh one is persisted.
  lemma EvidenceIsForCurrentRevision(o: Observation, learned: Learned)
    ensures var e := ResolveReadinessLead(o, learned);
      e.source != Unavailable ==>
        && o.ready >= 1 && o.revision.Some? && e.identity == o.revision.value.identity != "" && e.lead >= 0
        && e.observedAt != ZERO_TIME
        && (e.source == CurrentFreshSample <==> e.persist)
        && (e.source == CurrentFreshSample ==> o.startup == Some(Startup(e.lead, e.observedAt)))
        && (e.source == PersistedLearnedSample ==>
          learned.identity == e.identity && learned.observedAt == Some(e.observedAt))
  {
    if learned.leadSeconds.Some? && FiniteNonnegative(learned.leadSeconds.value) {
      assert learned.leadSeconds.value.v * 1_000_000_000.0 >= 0.0;
    }
  }
}
