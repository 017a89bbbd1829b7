/** Replacements of the configuration that overlap. Building takes place on private copies, so all that two
    calls in flight can see of each other are the write of the file and, later, the swap of the running
    configuration with its handler and pools. A call whose write fails spoils the file and takes no other step;
    one that is refused takes none. */
module Reload {
  import opened Wrappers
  import opened ConfigModel
  import opened Gateway
  import Provider

  datatype Step = Save(call: nat) | Spoil(call: nat) | Swap(call: nat)

  /** The running configuration, which the handler and pools always belong to, and the one in the file. */
  datatype State<T> = State(active: T, saved: Option<T>)

  predicate StepsOf(calls: nat, steps: seq<Step>) {
    forall p :: 0 <= p < |steps| ==> steps[p].call < calls
  }

  /** After these steps of calls that write and run these values, or whose failed writes leave these behind. */
  function After<T>(written: seq<T>, live: seq<T>, left: seq<Option<T>>, s: State<T>, steps: seq<Step>): State<T>
    requires |written| == |live| == |left| && StepsOf(|live|, steps)
  {
    if steps == [] then s
    else
      var n := |steps| - 1;
      var was := After(written, live, left, s, steps[..n]);
      match steps[n]
      case Save(call) => was.(saved := Some(written[call]))
      case Spoil(call) => was.(saved := left[call])
      case Swap(call) => was.(active := live[call])
  }

  /** Each call takes a step at most once, saves before it swaps, and takes no other step when it spoils. */
  predicate Interleaved(steps: seq<Step>) {
    && (forall p, q :: 0 <= p < q < |steps| ==> steps[p] != steps[q])
    && (forall q :: 0 <= q < |steps| && steps[q].Swap? ==> exists p :: 0 <= p < q && steps[p] == Save(steps[q].call))
    && (forall p, q :: 0 <= p < |steps| && 0 <= q < |steps| && steps[p].Spoil? && steps[q].call == steps[p].call ==>
          p == q)
  }

  /** No call is still in flight. */
  predicate Finished(steps: seq<Step>) {
    forall p :: 0 <= p < |steps| && steps[p].Save? ==> Swap(steps[p].call) in steps
  }

  /** No call takes a step while another one is between its save and its swap. */
  predicate OneAtATime(steps: seq<Step>) {
    forall p :: 0 <= p < |steps| && steps[p].Save? ==> p + 1 < |steps| && steps[p + 1] == Swap(steps[p].call)
  }

  /** Step p is the last attempt to write the file. */
  predicate LastWrite(steps: seq<Step>, p: nat) {
    p < |steps| && !steps[p].Swap? && forall q :: p < q < |steps| ==> steps[q].Swap?
  }

  predicate LastSwap(steps: seq<Step>, p: nat) {
    p < |steps| && steps[p].Swap? && forall q :: p < q < |steps| ==> !steps[q].Swap?
  }

  /** The call that saves at q also swaps before the call that swaps at s, which had saved before q: the one
      replacement lies inside the other. */
  predicate Nested(steps: seq<Step>, q: nat, s: nat)
    requires q < |steps| && s < |steps|
  {
    && Save(steps[s].call) in steps[..q]
    && q < s && Swap(steps[q].call) in steps[q..s]
  }

  // ---------------------------------------------------------------- what a schedule decides

  lemma {:induction false} LastWriteDecides<T>(
      written: seq<T>, live: seq<T>, left: seq<Option<T>>, s: State<T>, steps: seq<Step>, p: nat)
    requires |written| == |live| == |left| && StepsOf(|live|, steps) && LastWrite(steps, p)
    ensures After(written, live, left, s, steps).saved
      == if steps[p].Save? then Some(written[steps[p].call]) else left[steps[p].call]
  {
    var n := |steps| - 1;
    if p < n {
      LastWriteDecides(written, live, left, s, steps[..n], p);
    }
  }

  lemma {:induction false} LastSwapDecides<T>(
      written: seq<T>, live: seq<T>, left: seq<Option<T>>, s: State<T>, steps: seq<Step>, p: nat)
    requires |written| == |live| == |left| && StepsOf(|live|, steps) && LastSwap(steps, p)
    ensures After(written, live, left, s, steps).active == live[steps[p].call]
  {
    var n := |steps| - 1;
    if p < n {
      LastSwapDecides(written, live, left, s, steps[..n], p);
    }
  }

  lemma SavedBefore(steps: seq<Step>, s: nat, q: nat)
    requires Interleaved(steps) && LastWrite(steps, q)
    requires s < |steps| && steps[s].Swap? && steps[q].call != steps[s].call
    ensures Save(steps[s].call) in steps[..q]
  {
    var p :| 0 <= p < s && steps[p] == Save(steps[s].call);
    assert p != q && steps[..q][p] == steps[p];
  }

  lemma SwappedAfter(steps: seq<Step>, q: nat) returns (r: nat)
    requires Interleaved(steps) && Finished(steps) && q < |steps| && steps[q].Save?
    ensures q < r < |steps| && steps[r] == Swap(steps[q].call)
  {
    r :| 0 <= r < |steps| && steps[r] == Swap(steps[q].call);
    var p :| 0 <= p < r && steps[p] == Save(steps[r].call);
    assert steps[p] == steps[q];
  }

  /** The last to save is not the last to swap exactly when its whole replacement lies inside the other's. */
  lemma {:induction false} LastToSaveIsNestedIff(steps: seq<Step>, q: nat, s: nat)
    requires Interleaved(steps) && Finished(steps)
    requires LastWrite(steps, q) && steps[q].Save? && LastSwap(steps, s)
    ensures steps[q].call != steps[s].call <==> Nested(steps, q, s)
  {
    if steps[q].call != steps[s].call {
      SavedBefore(steps, s, q);
      var r := SwappedAfter(steps, q);
      hide Interleaved, Finished;
      assert r < s && steps[q..s][r - q] == steps[r];
    }
  }

  lemma {:induction false} LastWriteExists(steps: seq<Step>, p: nat) returns (q: nat)
    requires p < |steps| && !steps[p].Swap?
    ensures LastWrite(steps, q)
    decreases |steps| - p
  {
    q := p;
    if next :| p < next < |steps| && !steps[next].Swap? {
      q := LastWriteExists(steps, next);
    }
  }

  lemma SwapFollowsSave(steps: seq<Step>, s: nat)
    requires Interleaved(steps) && OneAtATime(steps) && s < |steps| && steps[s].Swap?
    ensures s > 0 && steps[s - 1] == Save(steps[s].call)
  {
    var p :| 0 <= p < s && steps[p] == Save(steps[s].call);
    assert steps[p + 1] == steps[s];
  }

  /** When no two calls overlap, a successful last write is followed by the last swap, of the same call. */
  lemma OneAtATimeLast(steps: seq<Step>, q: nat)
    requires Interleaved(steps) && OneAtATime(steps) && LastWrite(steps, q) && steps[q].Save?
    ensures LastSwap(steps, q + 1) && steps[q].call == steps[q + 1].call
  {
    forall s | q + 1 < s < |steps|
      ensures !steps[s].Swap?
    {
      if steps[s].Swap? {
        SwapFollowsSave(steps, s);
      }
    }
  }

  // ---------------------------------------------------------------- configurations

  function Live(given: seq<Settings>): (live: seq<Settings>)
    ensures |live| == |given|
  {
    seq(|given|, i requires 0 <= i < |given| => Normalised(given[i]))
  }

  /** The file and the runtime after these steps of calls given these configurations: the runtime gets the
      validated copy, the file what a second validation makes of that, or what a failed write leaves. */
  function AfterCalls(
      given: seq<Settings>, left: seq<Option<Settings>>, s: State<Settings>, steps: seq<Step>): State<Settings>
    requires |left| == |given| && StepsOf(|given|, steps)
  {
    After(Live(Live(given)), Live(given), left, s, steps)
  }

  /** The second validation makes no difference to any of them. */
  lemma WrittenIsLive(given: seq<Settings>)
    requires forall i :: 0 <= i < |given| ==> Acceptable(given[i])
    ensures Live(Live(given)) == Live(given)
    ensures forall i :: 0 <= i < |given| ==> Validated(Live(given)[i])
  {
    forall i | 0 <= i < |given|
      ensures Live(Live(given))[i] == Live(given)[i] && Validated(Live(given)[i])
    {
      ValidationIsIdempotent(given[i]);
    }
  }

  lemma FileAfterCalls(
      given: seq<Settings>, left: seq<Option<Settings>>, state: State<Settings>, steps: seq<Step>, q: nat)
    requires forall i :: 0 <= i < |given| ==> Acceptable(given[i])
    requires |left| == |given| && StepsOf(|given|, steps) && LastWrite(steps, q)
    ensures AfterCalls(given, left, state, steps).saved
      == if steps[q].Save? then Some(Live(given)[steps[q].call]) else left[steps[q].call]
  {
    WrittenIsLive(given);
    LastWriteDecides(Live(given), Live(given), left, state, steps, q);
  }

  lemma RuntimeAfterCalls(
      given: seq<Settings>, left: seq<Option<Settings>>, state: State<Settings>, steps: seq<Step>, s: nat)
    requires forall i :: 0 <= i < |given| ==> Acceptable(given[i])
    requires |left| == |given| && StepsOf(|given|, steps) && LastSwap(steps, s)
    ensures var after := AfterCalls(given, left, state, steps);
      Validated(after.active) && after.active == Live(given)[steps[s].call]
  {
    WrittenIsLive(given);
    LastSwapDecides(Live(given), Live(given), left, state, steps, s);
  }

  /** Whatever acceptable configurations these calls are given, and whatever their failed writes leave in the
      file, file and runtime end up with the same configuration. */
  ghost predicate AlwaysAgrees(calls: nat, state: State<Settings>, steps: seq<Step>)
    requires StepsOf(calls, steps)
  {
    forall given: seq<Settings>, left: seq<Option<Settings>> |
      |given| == |left| == calls && forall i :: 0 <= i < calls ==> Acceptable(given[i]) ::
      var after := AfterCalls(given, left, state, steps);
      after.saved == Some(after.active)
  }

  /** An acceptable configuration for each port. */
  function Sample(port: int): Settings {
    Settings(
      ServerConfig("", port),
      map["football" := PlatformConfig(
        Provider.API_SPORTS, "https://example.com", 30, DEFAULT_POOL, AuthConfig("", ""), NO_RATE_LIMIT)],
      map[DEFAULT_POOL := [KeyConfig("a", "secret")]],
      SchedulerConfig(1, 60, 30, 3, 3), ManagementConfig("", "", 0), ClientAuthConfig(false, []), "", map[], [])
  }

  lemma SampleIsAcceptable(port: int)
    requires 0 < port <= 65535
    ensures Acceptable(Sample(port)) && Normalised(Sample(port)).server.port == port
  {
    assert "football" in Sample(port).platforms && DEFAULT_POOL in Sample(port).credentialPools;
  }

  /** Acceptable configurations of which one differs from all others after validation. */
  lemma OneDiffers(calls: nat, call: nat) returns (given: seq<Settings>)
    ensures |given| == calls && forall i :: 0 <= i < calls ==> Acceptable(given[i])
    ensures forall i, j :: 0 <= i < calls && 0 <= j < calls && i == call && j != call ==>
      Live(given)[i] != Live(given)[j]
  {
    given := seq(calls, i requires 0 <= i < calls => Sample(if i == call then 80 else 81));
    SampleIsAcceptable(80);
    SampleIsAcceptable(81);
    hide Acceptable, Normalised, Sample;
    assert forall i :: 0 <= i < calls ==> given[i] == Sample(if i == call then 80 else 81);
  }

  /** Once all calls are done, file and runtime agree for every choice of configurations if and only if the last
      write succeeded and its replacement does not lie inside another one. */
  lemma {:induction false} SavedIsActiveIff(calls: nat, state: State<Settings>, steps: seq<Step>, q: nat, s: nat)
    requires StepsOf(calls, steps) && Interleaved(steps) && Finished(steps)
    requires LastWrite(steps, q) && LastSwap(steps, s)
    ensures AlwaysAgrees(calls, state, steps) <==> steps[q].Save? && !Nested(steps, q, s)
  {
    if steps[q].Save? {
      LastToSaveIsNestedIff(steps, q, s);
    }
    if steps[q].Save? && steps[q].call == steps[s].call {
      SameCallAgrees(calls, state, steps, q, s);
    } else {
      OtherwiseDisagrees(calls, state, steps, q, s);
    }
  }

  lemma {:induction false} SameCallAgrees(calls: nat, state: State<Settings>, steps: seq<Step>, q: nat, s: nat)
    requires StepsOf(calls, steps) && LastWrite(steps, q) && LastSwap(steps, s)
    requires steps[q].Save? && steps[q].call == steps[s].call
    ensures AlwaysAgrees(calls, state, steps)
  {
    hide Acceptable, After, Live;
    forall given: seq<Settings>, left: seq<Option<Settings>> |
      |given| == |left| == calls && forall i :: 0 <= i < calls ==> Acceptable(given[i])
      ensures AfterCalls(given, left, state, steps).saved == Some(AfterCalls(given, left, state, steps).active)
    {
      FileAfterCalls(given, left, state, steps, q);
      RuntimeAfterCalls(given, left, state, steps, s);
    }
  }

  lemma {:induction false} OtherwiseDisagrees(calls: nat, state: State<Settings>, steps: seq<Step>, q: nat, s: nat)
    requires StepsOf(calls, steps) && LastWrite(steps, q) && LastSwap(steps, s)
    requires steps[q].Spoil? || steps[q].call != steps[s].call
    ensures !AlwaysAgrees(calls, state, steps)
  {
    hide Acceptable, After, Live;
    var given := OneDiffers(calls, steps[q].call);
    var left: seq<Option<Settings>> := seq(calls, i requires 0 <= i < calls => None);
    FileAfterCalls(given, left, state, steps, q);
    RuntimeAfterCalls(given, left, state, steps, s);
  }

  /** Replacements that do not overlap leave file and runtime with one configuration exactly when the last
      attempted write succeeded, or what it left behind is by chance the running configuration. With no write
      attempted nothing changes. */
  lemma {:induction false} OneAtATimeSavedIsActiveIff(
      given: seq<Settings>, left: seq<Option<Settings>>, state: State<Settings>, steps: seq<Step>)
    requires forall i :: 0 <= i < |given| ==> Acceptable(given[i])
    requires |left| == |given| && StepsOf(|given|, steps) && Interleaved(steps) && OneAtATime(steps)
    ensures steps == [] ==> AfterCalls(given, left, state, steps) == state
    ensures steps != [] ==> exists q: nat :: LastWrite(steps, q)
    ensures forall q: nat :: LastWrite(steps, q) ==>
      var after := AfterCalls(given, left, state, steps);
      after.saved == Some(after.active) <==> steps[q].Save? || left[steps[q].call] == Some(after.active)
  {
    hide Acceptable, Live, After;
    if steps == [] {
      NoStepChangesNothing(given, left, state);
    } else {
      assert !steps[0].Swap?;
      var q := LastWriteExists(steps, 0);
    }
    forall q: nat | LastWrite(steps, q)
      ensures var after := AfterCalls(given, left, state, steps);
        after.saved == Some(after.active) <==> steps[q].Save? || left[steps[q].call] == Some(after.active)
    {
      FileAfterCalls(given, left, state, steps, q);
      if steps[q].Save? {
        OneAtATimeLast(steps, q);
        RuntimeAfterCalls(given, left, state, steps, q + 1);
      }
    }
  }

  lemma NoStepChangesNothing(given: seq<Settings>, left: seq<Option<Settings>>, state: State<Settings>)
    requires |left| == |given|
    ensures AfterCalls(given, left, state, []) == state
  {
  }

  const OVERLAP := [Save(0), Save(1), Swap(1), Swap(0)]

  lemma OverlapIsASchedule()
    ensures Interleaved(OVERLAP) && Finished(OVERLAP) && LastWrite(OVERLAP, 1) && LastSwap(OVERLAP, 3)
  {
    assert OVERLAP[0] == Save(0) && OVERLAP[1] == Save(1) && OVERLAP[2] == Swap(1) && OVERLAP[3] == Swap(0);
  }

  /** Two overlapping replacements: the first to save is the last to swap. The configuration that runs is
      not the one a restart would load. */
  lemma OverlapCanDisagree(given: seq<Settings>, left: seq<Option<Settings>>, state: State<Settings>)
    requires forall i :: 0 <= i < |given| ==> Acceptable(given[i])
    requires |given| == |left| && |given| >= 2 && StepsOf(|given|, OVERLAP)
    requires Live(given)[0] != Live(given)[1]
    ensures Interleaved(OVERLAP) && Finished(OVERLAP)
    ensures AfterCalls(given, left, state, OVERLAP).saved != Some(AfterCalls(given, left, state, OVERLAP).active)
  {
    OverlapIsASchedule();
    FileAfterCalls(given, left, state, OVERLAP, 1);
    RuntimeAfterCalls(given, left, state, OVERLAP, 3);
  }
}
