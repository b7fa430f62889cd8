// What the readiness observation says of the listed pods and ReplicaSets, in terms
// of their fields.
module ReadinessLaws {
  import opened Values
  import opened Readiness

  // ----- The revision -----

  // Owned by the Deployment, with its template but for the hash label.
  ghost predicate HasTemplate(d: Deployment, rs: ReplicaSet) {
    && rs.controller.Some? && rs.controller.value.kind == "Deployment"
    && rs.controller.value.name == d.name && rs.controller.value.uid == d.uid
    && rs.template.rest == d.template.rest
    && forall l :: l != "pod-template-hash" ==>
      && (l in rs.template.labels <==> l in d.template.labels)
      && (l in d.template.labels ==> rs.template.labels[l] == d.template.labels[l])
  }

  // Labelled with the hash on itself and on its template.
  predicate Hashed(rs: ReplicaSet, hash: string) {
    && "pod-template-hash" in rs.labels && rs.labels["pod-template-hash"] == hash
    && "pod-template-hash" in rs.template.labels && rs.template.labels["pod-template-hash"] == hash
  }

  // The revision is the one the ReplicaSets with the Deployment's template agree
  // on, once the Deployment's generation has been observed.
  ghost predicate Agreed(d: Deployment, sets: seq<ReplicaSet>, hash: string, uid: string) {
    && hash != "" && d.uid != "" && d.generation != 0 && d.generation <= d.observedGeneration
    && (exists rs :: rs in sets && HasTemplate(d, rs))
    && forall rs :: rs in sets && HasTemplate(d, rs) ==> Hashed(rs, hash) && rs.uid == uid
  }

  lemma TemplateIff(d: Deployment, rs: ReplicaSet)
    ensures Current(d, rs) <==> HasTemplate(d, rs)
  {
    var a, b := d.template.labels - {HASH_LABEL}, rs.template.labels - {HASH_LABEL};
    if HasTemplate(d, rs) {
      assert a.Keys == b.Keys;
    }
    if Current(d, rs) {
      forall l | l != "pod-template-hash"
        ensures l in rs.template.labels <==> l in d.template.labels
        ensures l in d.template.labels ==> rs.template.labels[l] == d.template.labels[l]
      {
        assert l in a <==> l in d.template.labels;
        assert l in b <==> l in rs.template.labels;
        assert l in a ==> a[l] == d.template.labels[l];
        assert l in b ==> b[l] == rs.template.labels[l];
      }
    }
  }

  lemma HashedIff(rs: ReplicaSet, revision: Revision)
    ensures SameRevision(rs, revision) <==>
      revision.identity != "" && Hashed(rs, revision.identity) && rs.uid == revision.uid
  {
  }

  lemma RevisionIff(view: TargetView, hash: string, uid: string)
    ensures RevisionSeen(view) == Some(Revision(hash, uid)) <==>
      view.replicaSets.Some? && Agreed(view.deployment, view.replicaSets.value, hash, uid)
  {
    if view.replicaSets.Some? {
      var d, sets, revision := view.deployment, view.replicaSets.value, Revision(hash, uid);
      forall rs
        ensures Current(d, rs) <==> HasTemplate(d, rs)
        ensures SameRevision(rs, revision) <==> hash != "" && Hashed(rs, hash) && rs.uid == uid
      {
        TemplateIff(d, rs);
        HashedIff(rs, revision);
      }
      assert Identifies(d, sets, revision) <==> Agreed(d, sets, hash, uid);
    }
  }

  // ----- Startups -----

  // Condition j is Ready and says since when, and none before it does.
  predicate ReadySince(conditions: seq<Condition>, j: nat, since: int) {
    && j < |conditions| && conditions[j].ready && conditions[j].isTrue && conditions[j].since == since != 0
    && forall i :: 0 <= i < j ==> !(conditions[i].ready && conditions[i].isTrue && conditions[i].since != 0)
  }

  lemma {:induction false} ReadyAtIff(conditions: seq<Condition>, since: int)
    ensures ReadyAt(conditions) == Some(since) <==> exists j: nat :: ReadySince(conditions, j, since)
  {
    if |conditions| > 0 {
      var c, rest := conditions[0], conditions[1..];
      ReadyAtIff(rest, since);
      if c.ready && c.isTrue && c.since != 0 {
        if c.since == since {
          assert ReadySince(conditions, 0, since);
        }
      } else {
        if j: nat :| ReadySince(rest, j, since) {
          assert ReadySince(conditions, j + 1, since) by {
            assert forall i :: 0 < i < j + 1 ==> conditions[i] == rest[i - 1];
          }
        }
        if j: nat :| ReadySince(conditions, j, since) {
          assert j > 0 && ReadySince(rest, j - 1, since);
        }
      }
    }
  }

  // The last status reported for the container says it never restarted.
  predicate NeverRestartedAt(statuses: seq<ContainerStatus>, name: string, j: nat) {
    && j < |statuses| && statuses[j].name == name && statuses[j].restarts == 0
    && forall i :: j < i < |statuses| ==> statuses[i].name != name
  }

  lemma {:induction false} StatusIff(statuses: seq<ContainerStatus>, name: string)
    ensures StatusOf(statuses, name) == Some(0) <==> exists j: nat :: NeverRestartedAt(statuses, name, j)
  {
    if |statuses| > 0 {
      var front := statuses[..|statuses| - 1];
      StatusIff(front, name);
      if Last(statuses).name == name {
        if Last(statuses).restarts == 0 {
          assert NeverRestartedAt(statuses, name, |statuses| - 1);
        }
      } else {
        if j: nat :| NeverRestartedAt(front, name, j) {
          assert NeverRestartedAt(statuses, name, j);
        }
        if j: nat :| NeverRestartedAt(statuses, name, j) {
          assert NeverRestartedAt(front, name, j);
        }
      }
    }
  }

  // A pod of the revision that became Ready `lead` after it was created, at
  // readyAt, and none of whose containers ever restarted.
  ghost predicate CleanStart(pod: Pod, hash: string, uid: string, lead: int, readyAt: int) {
    && !pod.deleting && "pod-template-hash" in pod.labels && pod.labels["pod-template-hash"] == hash
    && pod.controller.Some? && pod.controller.value.kind == "ReplicaSet" && pod.controller.value.uid == uid
    && (exists j: nat :: ReadySince(pod.conditions, j, readyAt))
    && pod.createdAt != 0 && lead >= 0 && pod.createdAt + lead == readyAt
    && pod.containers != []
    && forall c :: c in pod.containers ==> exists j: nat :: NeverRestartedAt(pod.statuses, c, j)
  }

  lemma ReadyIfSince(pod: Pod, since: int)
    requires exists j: nat :: ReadySince(pod.conditions, j, since)
    ensures IsReady(pod)
  {
    var j: nat :| ReadySince(pod.conditions, j, since);
    assert pod.conditions[j] in pod.conditions;
  }

  lemma CleanStartIff(pod: Pod, hash: string, uid: string, lead: int, readyAt: int)
    requires hash != ""
    ensures CleanStart(pod, hash, uid, lead, readyAt) <==>
      Measurable(pod, Revision(hash, uid)) && StartupOf(pod) == Startup(lead, readyAt)
  {
    ReadyAtIff(pod.conditions, readyAt);
    forall c | c in pod.containers
      ensures StatusOf(pod.statuses, c) == Some(0) <==> exists j: nat :: NeverRestartedAt(pod.statuses, c, j)
    {
      StatusIff(pod.statuses, c);
    }
    if exists j: nat :: ReadySince(pod.conditions, j, readyAt) {
      ReadyIfSince(pod, readyAt);
    }
  }

  // Among the clean starts of the revision this one is the longest, and the latest
  // of the longest.
  ghost predicate LongestStart(pods: seq<Pod>, hash: string, uid: string, lead: int, readyAt: int) {
    && (exists pod :: pod in pods && CleanStart(pod, hash, uid, lead, readyAt))
    && forall pod, l, r :: pod in pods && CleanStart(pod, hash, uid, l, r) ==> l < lead || (l == lead && r <= readyAt)
  }

  // The startup that is measured, in terms of pods and ReplicaSets.
  lemma LongestStartIff(pods: seq<Pod>, hash: string, uid: string, lead: int, readyAt: int)
    requires hash != ""
    ensures Longest(pods, Revision(hash, uid)) == Some(Startup(lead, readyAt)) <==>
      LongestStart(pods, hash, uid, lead, readyAt)
  {
    var revision, startup := Revision(hash, uid), Startup(lead, readyAt);
    LongestIsMaximal(pods, revision);
    forall pod, l, r
      ensures CleanStart(pod, hash, uid, l, r) <==> Measurable(pod, revision) && StartupOf(pod) == Startup(l, r)
    {
      CleanStartIff(pod, hash, uid, l, r);
    }
    if LongestStart(pods, hash, uid, lead, readyAt) {
      LongestStartIsLongest(pods, hash, uid, lead, readyAt);
      LongestUnique(pods, revision, Longest(pods, revision).value, startup);
    }
    if Longest(pods, revision) == Some(startup) {
      assert IsLongest(pods, revision, startup);
      forall pod, l, r | pod in pods && CleanStart(pod, hash, uid, l, r)
        ensures l < lead || (l == lead && r <= readyAt)
      {
        assert !Longer(StartupOf(pod), startup);
      }
    }
  }

  lemma LongestStartIsLongest(pods: seq<Pod>, hash: string, uid: string, lead: int, readyAt: int)
    requires LongestStart(pods, hash, uid, lead, readyAt)
    requires forall pod, l, r :: CleanStart(pod, hash, uid, l, r) <==>
      Measurable(pod, Revision(hash, uid)) && StartupOf(pod) == Startup(l, r)
    ensures IsLongest(pods, Revision(hash, uid), Startup(lead, readyAt))
    ensures exists pod :: pod in pods && Measurable(pod, Revision(hash, uid))
  {
    var revision := Revision(hash, uid);
    forall pod | pod in pods && Measurable(pod, revision)
      ensures !Longer(StartupOf(pod), Startup(lead, readyAt))
    {
      assert CleanStart(pod, hash, uid, StartupOf(pod).lead, StartupOf(pod).readyAt);
    }
  }

  // ----- The whole observation -----

  // Some Ready condition of a pod that is not being deleted.
  predicate Serves(pod: Pod) {
    !pod.deleting && exists j :: 0 <= j < |pod.conditions| && pod.conditions[j].ready && pod.conditions[j].isTrue
  }

  function ServingPods(pods: seq<Pod>): set<nat> {
    set j: nat | j < |pods| && Serves(pods[j])
  }

  lemma {:induction false} CountServing(pods: seq<Pod>)
    ensures |Filter(pods, Serving())| == |ServingPods(pods)| <= |pods|
  {
    if |pods| > 0 {
      var front, n := pods[..|pods| - 1], |pods| - 1;
      CountServing(front);
      assert forall j: nat :: j < n ==> front[j] == pods[j];
      ServesIff(Last(pods));
      if Serves(Last(pods)) {
        assert ServingPods(pods) == ServingPods(front) + {n};
      } else {
        assert ServingPods(pods) == ServingPods(front);
      }
    }
  }

  lemma ServesIff(pod: Pod)
    ensures Serves(pod) <==> Serving()(pod)
  {
    if IsReady(pod) {
      var c :| c in pod.conditions && c.ready && c.isTrue;
      var j :| 0 <= j < |pod.conditions| && pod.conditions[j] == c;
    }
  }

  // The observation in terms of the lists: it fails only without a pod list; it
  // counts the Ready pods (of fewer than 2^31), and has the agreed revision and its
  // longest clean start, if any.
  lemma ObservationIff(view: TargetView)
    ensures ReadinessOf(view).None? <==> view.pods.None?
    ensures view.pods.Some? && |view.pods.value| <= MAX_INT32 ==>
      ReadinessOf(view).value.ready == |ServingPods(view.pods.value)|
    ensures view.pods.Some? ==> forall hash, uid ::
      ReadinessOf(view).value.revision == Some(Revision(hash, uid)) <==>
        view.replicaSets.Some? && Agreed(view.deployment, view.replicaSets.value, hash, uid)
    ensures view.pods.Some? ==> forall hash, uid, lead, readyAt ::
      ReadinessOf(view).value.revision == Some(Revision(hash, uid)) ==>
        (ReadinessOf(view).value.startup == Some(Startup(lead, readyAt)) <==>
          LongestStart(view.pods.value, hash, uid, lead, readyAt))
  {
    if view.pods.Some? {
      var pods := view.pods.value;
      CountServing(pods);
      forall hash, uid
        ensures RevisionSeen(view) == Some(Revision(hash, uid)) <==>
          view.replicaSets.Some? && Agreed(view.deployment, view.replicaSets.value, hash, uid)
      {
        RevisionIff(view, hash, uid);
      }
      forall hash, uid, lead, readyAt | RevisionSeen(view) == Some(Revision(hash, uid))
        ensures Longest(pods, Revision(hash, uid)) == Some(Startup(lead, readyAt)) <==>
          LongestStart(pods, hash, uid, lead, readyAt)
      {
        RevisionIff(view, hash, uid);
        LongestStartIff(pods, hash, uid, lead, readyAt);
      }
    }
  }
}
