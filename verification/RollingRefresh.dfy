/** Rolling image refreshes of the auto scaling group (internal/cloud/aws/manager.go,
    ensureAutoScalingGroup as far as the image hash goes, ensureImageRollingRefresh). The image
    whose rollout was last begun is remembered in a tag of the group. */
module RollingRefresh {
  import opened Prelude

  datatype RefreshStatus = Pending | InProgress | Cancelling | Finished

  /** What starting a refresh leads to. */
  datatype StartResult = Started | AlreadyInProgress | StartFailed

  /** One call: the image hash of the spec ("" when it names no image), what the cloud reports,
      and which requests get through. `refreshes` is None when they cannot be listed. */
  datatype Call = Call(
    desired: string, described: bool, gone: bool, created: bool, updated: bool, instances: nat,
    refreshes: Option<seq<RefreshStatus>>, start: StartResult, tagged: bool)

  /** The group's image tag ("" when it has none), how many refreshes were started, and how many
      of those were not recorded because writing the tag failed. */
  datatype State = State(tag: string, started: nat, unrecorded: nat)

  predicate Active(s: RefreshStatus) {
    s.Pending? || s.InProgress? || s.Cancelling?
  }

  ghost predicate AnyActive(refreshes: seq<RefreshStatus>) {
    exists i :: 0 <= i < |refreshes| && Active(refreshes[i])
  }

  // ---------------------------------------------------------------- one call

  /** The call gets as far as comparing hashes. */
  ghost predicate Compares(x: Call) {
    x.described && !x.gone && x.updated && x.desired != ""
  }

  /** The call asks for a refresh and the cloud starts one. */
  ghost predicate Starts(st: State, x: Call) {
    && Compares(x) && st.tag != "" && st.tag != x.desired && x.instances > 0
    && x.refreshes.Some? && !AnyActive(x.refreshes.value) && x.start.Started?
  }

  /** The call writes the tag without asking for a refresh: for a new group, for one without a
      tag, and for one without machines. */
  ghost predicate Baselines(st: State, x: Call) {
    && x.described && x.desired != ""
    && if x.gone then x.created else x.updated && (st.tag == "" || (st.tag != x.desired && x.instances == 0))
  }

  ghost function Step(st: State, x: Call): State {
    var tag := if x.described && x.gone && x.created then "" else st.tag;
    State(
      if (Starts(st, x) || Baselines(st, x)) && x.tagged then x.desired else tag,
      st.started + if Starts(st, x) then 1 else 0,
      st.unrecorded + if Starts(st, x) && !x.tagged then 1 else 0)
  }

  class AutoScaling {
    var tag: string
    var started: nat
    var unrecorded: nat

    constructor (tag: string)
      ensures Current() == State(tag, 0, 0)
    {
      this.tag, started, unrecorded := tag, 0, 0;
    }

    ghost function Current(): State
      reads this
    {
      State(tag, started, unrecorded)
    }

    method HasActiveInstanceRefresh(x: Call) returns (r: Option<bool>)
      ensures r == if x.refreshes.Some? then Some(AnyActive(x.refreshes.value)) else None
    {
      if x.refreshes.None? {
        return None;
      }
      for i := 0 to |x.refreshes.value|
        invariant forall k | 0 <= k < i :: !Active(x.refreshes.value[k])
      {
        if Active(x.refreshes.value[i]) {
          return Some(true);
        }
      }
      return Some(false);
    }

    method SetTag(x: Call) returns (ok: bool)
      modifies this`tag
      ensures ok == x.tagged && tag == if ok then x.desired else old(tag)
    {
      ok := x.tagged;
      if ok {
        tag := x.desired;
      }
    }

    /** ensureImageRollingRefresh. */
    method EnsureImageRollingRefresh(x: Call) returns (ok: bool)
      requires x.described && !x.gone && x.updated
      modifies this
      ensures Current() == Step(old(Current()), x)
      ensures ok ==> Settled(old(Current()), x, Current())
    {
      if x.desired == "" {
        return true;
      }
      if tag == "" {
        ok := SetTag(x);
        return;
      }
      if tag == x.desired {
        return true;
      }
      if x.instances == 0 {
        ok := SetTag(x);
        return;
      }
      var inProgress := HasActiveInstanceRefresh(x);
      if inProgress.None? {
        return false;
      }
      if inProgress.value {
        return true;
      }
      if !x.start.Started? {
        return x.start.AlreadyInProgress?;
      }
      started := started + 1;
      ok := SetTag(x);
      if !ok {
        unrecorded := unrecorded + 1;
      }
    }

    /** ensureAutoScalingGroup. */
    method EnsureAutoScalingGroup(x: Call) returns (ok: bool)
      modifies this
      ensures Current() == Step(old(Current()), x)
      ensures ok ==> Settled(old(Current()), x, Current())
    {
      if !x.described {
        return false;
      }
      if x.gone {
        if !x.created {
          return false;
        }
        tag := "";
        if x.desired != "" {
          ok := SetTag(x);
          return;
        }
        return true;
      }
      if !x.updated {
        return false;
      }
      ok := EnsureImageRollingRefresh(x);
    }
  }

  // ---------------------------------------------------------------- single calls

  /** After a call without error the wanted image is recorded, or a refresh is still under way
      and nothing has changed: the rollout is put off, not lost. */
  ghost predicate Settled(st: State, x: Call, after: State) {
    x.desired == "" || after.tag == x.desired
    || (after == st && ((x.refreshes.Some? && AnyActive(x.refreshes.value)) || x.start.AlreadyInProgress?))
  }

  /** A refresh is started only when none is reported active and the tag names another image;
      and the tag of a group with machines moves from one image to another only together with
      a refresh. */
  lemma {:induction false} StartedOnlyWhenNeeded(st: State, x: Call)
    ensures st.started <= Step(st, x).started <= st.started + 1
    ensures Step(st, x).started > st.started ==>
      && x.desired != "" && st.tag != "" && st.tag != x.desired
      && x.instances > 0 && x.refreshes.Some? && !AnyActive(x.refreshes.value)
    ensures Step(st, x).tag != st.tag && st.tag != "" && !x.gone && x.instances > 0 ==>
      Step(st, x).started == st.started + 1
  {
  }

  /** Every refresh the cloud lists has come to an end. */
  ghost predicate AllOver(x: Call) {
    x.refreshes.Some? && forall r | r in x.refreshes.value :: r == Finished
  }

  lemma {:induction false} AllOverIff(x: Call)
    ensures AllOver(x) <==> x.refreshes.Some? && !AnyActive(x.refreshes.value)
  {
    if x.refreshes.Some? && AnyActive(x.refreshes.value) {
      var i :| 0 <= i < |x.refreshes.value| && Active(x.refreshes.value[i]);
      assert x.refreshes.value[i] in x.refreshes.value;
    }
    if x.refreshes.Some? && !AnyActive(x.refreshes.value) {
      forall r | r in x.refreshes.value ensures r == Finished {
        var i :| 0 <= i < |x.refreshes.value| && x.refreshes.value[i] == r;
      }
    }
  }

  /** The machines of the group run another image than the one asked for. */
  predicate Outdated(st: State, x: Call) {
    st.tag != "" && st.tag != x.desired && x.instances > 0
  }

  /** Exactly when a refresh is started: the group is there with machines and a tag, the call asks
      for another image, everything listed is over, and the cloud agrees. */
  lemma {:induction false} StartedIff(st: State, x: Call)
    ensures Step(st, x).started == st.started
      + if && x.described && !x.gone && x.updated && x.desired != "" && Outdated(st, x)
           && AllOver(x) && x.start == Started then 1 else 0
    ensures Step(st, x).unrecorded == st.unrecorded
      + if Step(st, x).started > st.started && !x.tagged then 1 else 0
  {
    AllOverIff(x);
  }

  /** What the tag is afterwards. A new group starts without one; it becomes the image asked for when
      the group is new, has no tag, has no machines, or has just been told to refresh them. */
  lemma {:induction false} TagAfter(st: State, x: Call)
    ensures !x.described || (if x.gone then !x.created else !x.updated) ==> Step(st, x) == st
    ensures x.described && x.gone && x.created ==>
      Step(st, x).tag == if x.tagged then x.desired else ""
    ensures x.described && !x.gone && x.updated && (x.desired == "" || !x.tagged) ==> Step(st, x).tag == st.tag
    ensures x.described && !x.gone && x.updated && x.desired != "" && x.tagged && !Outdated(st, x) ==>
      Step(st, x).tag == x.desired
    ensures x.described && !x.gone && x.updated && x.desired != "" && x.tagged && Outdated(st, x) ==>
      Step(st, x).tag == if Step(st, x).started > st.started then x.desired else st.tag
  {
    AllOverIff(x);
  }

  // ---------------------------------------------------------------- runs

  ghost function Run(st: State, calls: seq<Call>, n: nat): State
    requires n <= |calls|
  {
    if n == 0 then st else Step(Run(st, calls, n - 1), calls[n - 1])
  }

  /** The last image hash the first `n` calls asked for. */
  ghost function LastDesired(calls: seq<Call>, n: nat): string
    requires n <= |calls|
  {
    if n == 0 then "" else if calls[n - 1].desired != "" then calls[n - 1].desired else LastDesired(calls, n - 1)
  }

  /** How often the first `n` calls changed their mind about the image. */
  ghost function Changes(calls: seq<Call>, n: nat): nat
    requires n <= |calls|
  {
    if n == 0 then 0
    else
      var last, now := LastDesired(calls, n - 1), calls[n - 1].desired;
      Changes(calls, n - 1) + if now != "" && last != "" && now != last then 1 else 0
  }

  /** With nothing left to roll out one more refresh has been paid for than changes. */
  ghost function Slack(st: State, last: string): nat {
    if last == "" then 0 else if st.tag == last || st.tag == "" then 1 else 0
  }

  lemma {:induction false} RefreshesBounded(st: State, calls: seq<Call>, n: nat)
    requires n <= |calls|
    ensures var now := Run(st, calls, n);
      && st.unrecorded <= now.unrecorded
      && now.started - st.started
           <= Changes(calls, n) + (now.unrecorded - st.unrecorded) + Slack(now, LastDesired(calls, n))
  {
    if n > 0 {
      RefreshesBounded(st, calls, n - 1);
    }
  }

  /** At most one refresh per change of the image, over any run with any failures: the first
      image, each change, and each refresh whose tag could not be written account for one. */
  lemma {:induction false} OneRefreshPerChange(st: State, calls: seq<Call>)
    ensures var now := Run(st, calls, |calls|);
      now.started - st.started <= 1 + Changes(calls, |calls|) + (now.unrecorded - st.unrecorded)
  {
    RefreshesBounded(st, calls, |calls|);
  }

  /** How often the tag moved during the first `n` calls. */
  ghost function TagChanges(st: State, calls: seq<Call>, n: nat): nat
    requires n <= |calls|
  {
    if n == 0 then 0
    else TagChanges(st, calls, n - 1) + if Run(st, calls, n).tag != Run(st, calls, n - 1).tag then 1 else 0
  }

  /** Every refresh is accounted for: as long as the group exists with machines, each refresh
      started moved the tag to another image or failed to be recorded, and nothing else moved the
      tag. */
  lemma {:induction false} RolloutsAccountedFor(st: State, calls: seq<Call>, n: nat)
    requires n <= |calls| && st.tag != ""
    requires forall i | 0 <= i < n :: !calls[i].gone && calls[i].instances > 0
    ensures var now := Run(st, calls, n);
      now.tag != "" && now.started - st.started == TagChanges(st, calls, n) + now.unrecorded - st.unrecorded
  {
    if n > 0 {
      RolloutsAccountedFor(st, calls, n - 1);
      StartedOnlyWhenNeeded(Run(st, calls, n - 1), calls[n - 1]);
    }
  }

  /** A recorded image is not rolled out again while the specification stays with it. */
  lemma {:induction false} RecordedStays(st: State, calls: seq<Call>, n: nat)
    requires n <= |calls| && st.tag != ""
    requires forall i | 0 <= i < n :: calls[i].desired in {st.tag, ""} && !calls[i].gone
    ensures Run(st, calls, n) == st
  {
    if n > 0 {
      RecordedStays(st, calls, n - 1);
    }
  }

  /** A free way for a new image whose tag cannot be written. */
  ghost predicate StartsUnrecorded(x: Call, d: string) {
    && x.desired == d && Compares(x) && x.instances > 0
    && x.refreshes.Some? && !AnyActive(x.refreshes.value) && x.start.Started? && !x.tagged
  }

  /** The bound cannot do without its last term: as long as the tag cannot be written, one and
      the same image is rolled out over and over. */
  lemma {:induction false} UnrecordedRepeats(st: State, calls: seq<Call>, d: string, n: nat)
    requires n <= |calls| && st.tag != "" && st.tag != d && d != ""
    requires forall i | 0 <= i < n :: StartsUnrecorded(calls[i], d)
    ensures Run(st, calls, n) == State(st.tag, st.started + n, st.unrecorded + n)
    ensures Changes(calls, n) == 0
    ensures n > 0 ==> LastDesired(calls, n) == d
  {
    if n > 0 {
      UnrecordedRepeats(st, calls, d, n - 1);
    }
  }
}
