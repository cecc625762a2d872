/** What the await inside the proof handler lets happen (relay/src/host-relay.ts:153-210):
    when proofs are judged promptly, nothing; otherwise exactly what. */
module RelayVerdicts {
  import opened Common
  import opened Limiter
  import opened Relay
  import opened RelayCore
  import opened RelayTalk
  import Base64url

  // -- prompt runs ----------------------------------------------------------

  /** While a proof is under examination nothing but its verdict happens. */
  ghost predicate Prompt(s: State, clock: int, run: seq<Timed>)
    requires Legal(s, clock, run)
    decreases |run|
  {
    run == [] ||
    ((s.verifying != [] ==> run[0].event.Judged?)
     && Prompt(Step(s, run[0].at, run[0].event), run[0].at, run[1..]))
  }

  /** At most one proof is under examination, and its link still waits for it. */
  predicate Awaited(s: State) {
    && |s.verifying| <= 1
    && forall v :: 0 <= v < |s.verifying| ==>
         s.verifying[v].link < |s.hosts| && s.hosts[s.verifying[v].link].stage == AwaitProof
  }

  lemma PromptStep(s: State, now: int, e: Event)
    requires Awaited(s) && Enabled(s, now, e) && (s.verifying != [] ==> e.Judged?)
    ensures Awaited(Step(s, now, e)) && !Orphans(s, e) && !Revives(s, e)
  {
    hide Base64url.HostKey, Base64url.Text, Base64url.Decoded;
  }

  lemma {:induction false} PromptKeeps(s: State, clock: int, run: seq<Timed>)
    requires Awaited(s) && Legal(s, clock, run) && Prompt(s, clock, run)
    ensures Orderly(s, clock, run) && Unrevived(s, clock, run)
    decreases |run|
  {
    hide Awaited, Step, Enabled, Orphans, Revives;
    if run != [] {
      PromptStep(s, run[0].at, run[0].event);
      PromptKeeps(Step(s, run[0].at, run[0].event), run[0].at, run[1..]);
    }
  }

  /** With every handler run to its end before the next event, and nothing else
      assumed: each connection's frames are one conversation on one host link,
      every live device was opened on the host that is ready now, and no link
      comes back once it has ended. */
  lemma EveryPromptRun(apns: bool, clock: int, run: seq<Timed>)
    requires 0 <= clock && Legal(Initial(apns), clock, run) && Prompt(Initial(apns), clock, run)
    ensures Threads(Exec(Initial(apns), clock, run)) && DevicesOnReadyHost(Exec(Initial(apns), clock, run))
    ensures EndForGood(Initial(apns), clock, run)
  {
    hide Legal, Exec, Orderly, Prompt, Threads, DevicesOnReadyHost, EndForGood, Unrevived;
    PromptKeeps(Initial(apns), clock, run);
    EveryConversation(apns, clock, run);
    EndsExactly(Initial(apns), clock, run);
  }

  // -- links that come back -------------------------------------------------

  predicate StaysGone(s: State, s': State) {
    |s.hosts| <= |s'.hosts| && forall h :: 0 <= h < |s.hosts| && s.hosts[h].stage == Gone ==> s'.hosts[h].stage == Gone
  }

  /** A link that has ended stays ended, at every step of the run. */
  ghost predicate EndForGood(s: State, clock: int, run: seq<Timed>)
    requires Legal(s, clock, run)
    decreases |run|
  {
    run == [] ||
    (var next := Step(s, run[0].at, run[0].event);
     StaysGone(s, next) && EndForGood(next, run[0].at, run[1..]))
  }

  /** Every matching verdict of the run finds its link not yet ended. */
  ghost predicate Unrevived(s: State, clock: int, run: seq<Timed>)
    requires Legal(s, clock, run)
    decreases |run|
  {
    run == [] ||
    (!Revives(s, run[0].event) && Unrevived(Step(s, run[0].at, run[0].event), run[0].at, run[1..]))
  }

  lemma StepEndsExactly(s: State, now: int, e: Event)
    requires Enabled(s, now, e)
    ensures StaysGone(s, Step(s, now, e)) <==> !Revives(s, e)
  {
    hide Base64url.HostKey, Base64url.Text, Base64url.Decoded;
    if Revives(s, e) {
      var h := s.verifying[e.proof].link;
      assert Step(s, now, e).hosts[h].stage == Ready;
    }
  }

  /** Links end for good exactly in the runs whose matching verdicts all find
      their link not yet ended. */
  lemma {:induction false} EndsExactly(s: State, clock: int, run: seq<Timed>)
    requires Legal(s, clock, run)
    ensures EndForGood(s, clock, run) <==> Unrevived(s, clock, run)
    decreases |run|
  {
    hide Step, Enabled, Revives, StaysGone;
    if run != [] {
      StepEndsExactly(s, run[0].at, run[0].event);
      EndsExactly(Step(s, run[0].at, run[0].event), run[0].at, run[1..]);
    }
  }

  /** A verdict that finds its link ended makes that dead link the host: the live
      host is ended for it, and every device closed. */
  lemma RevivalReplaces(s: State, clock: int, now: int, e: Event)
    requires Core(s, clock) && Enabled(s, now, e) && Revives(s, e)
    ensures var dead, s' := s.verifying[e.proof].link, Step(s, now, e);
      && ReadyHost(s'.hosts) == Some(dead)
      && (ReadyHost(s.hosts).Some? ==>
            s'.hosts[ReadyHost(s.hosts).value].stage == Gone && forall d :: !Live(s'.devices, d))
  {
    hide NotifyBudgeted, IdsAscend, LiveCount;
    var dead, s' := s.verifying[e.proof].link, Step(s, now, e);
    assert s'.hosts[dead].stage == Ready;
    assert forall h :: 0 <= h < |s'.hosts| && h != dead ==> s'.hosts[h].stage != Ready;
    if ReadyHost(s.hosts).Some? {
      assert OtherReady(s.hosts, dead);
    }
  }

  /** A claim sends its proof and hangs up; another claim becomes the host and a
      device attaches; then the first proof's verdict comes. */
  lemma RevivingRun(apns: bool) returns (run: seq<Timed>, last: Event)
    ensures Legal(Initial(apns), 0, run) && Unrevived(Initial(apns), 0, run)
    ensures var s := Exec(Initial(apns), 0, run);
      Enabled(s, ClockAfter(0, run), last) && Revives(s, last) && ReadyHost(s.hosts) == Some(1) && Live(s.devices, 0)
  {
    hide Step, Enabled, Revives, Legal, Exec, Unrevived, ClockAfter, Base64url.Text, Base64url.Decoded, Base64url.HostKey;
    var key := Bytes(1);
    var text := Base64url.Text(key);
    var claim, first, second := HostAttaches(text, key, Some(key)), HostSends(0, Text([]), Some(text)), HostSends(1, Text([]), Some(text));
    var s0 := Initial(apns);
    var s1 := Claimed(s0, key);
    var s2 := ProofTaken(s1, 0, key, key);
    var s3 := HangsUp(s2, key);
    var s4 := Claimed(s3, key);
    var s5 := ProofTaken(s4, 1, key, key);
    var s6, s7 := SecondJudged(s5, key);
    Harmless(s0, claim);
    Harmless(s1, first);
    Harmless(s2, HostCloses(0));
    Harmless(s3, claim);
    Harmless(s4, second);
    Harmless(s6, DeviceAttaches);
    last := Judged(0);
    run := OnItsOwn(s6, DeviceAttaches);
    run := Ahead(s5, Timed(0, Judged(1)), run);
    run := Ahead(s4, Timed(0, second), run);
    run := Ahead(s3, Timed(0, claim), run);
    run := Ahead(s2, Timed(0, HostCloses(0)), run);
    run := Ahead(s1, Timed(0, first), run);
    run := Ahead(s0, Timed(0, claim), run);
  }

  lemma HangsUp(s: State, key: seq<Byte>) returns (next: State)
    requires s.hosts == [ClaimLink(key)]
    ensures Enabled(s, 0, HostCloses(0)) && next == Step(s, 0, HostCloses(0))
    ensures next == s.(hosts := [ClaimLink(key).(stage := Gone)])
  {
    next := HostClosed(s, 0);
  }

  lemma SecondJudged(s5: State, key: seq<Byte>) returns (s6: State, s7: State)
    requires s5.hosts == [ClaimLink(key).(stage := Gone), ClaimLink(key)] && s5.devices == [] && s5.nextConnId == 1
    requires s5.verifying == [Verification(0, key, 0), Verification(1, key, 0)]
    ensures Enabled(s5, 0, Judged(1)) && s6 == Step(s5, 0, Judged(1)) && !Revives(s5, Judged(1))
    ensures s7 == Step(s6, 0, DeviceAttaches)
    ensures Enabled(s7, 0, Judged(0)) && Revives(s7, Judged(0)) && ReadyHost(s7.hosts) == Some(1) && Live(s7.devices, 0)
  {
    hide Base64url.Text;
    s6 := Verdict(s5, 1);
    assert s6.hosts == [ClaimLink(key).(stage := Gone), ClaimLink(key).(stage := Ready)];
    assert s6.verifying == [Verification(0, key, 0)];
    assert ReadyHost(s6.hosts) == Some(1);
    s7 := DeviceTaken(s6);
  }

  /** A run of one event that revives nothing. */
  lemma OnItsOwn(s: State, e: Event) returns (run: seq<Timed>)
    requires Enabled(s, 0, e) && !Revives(s, e)
    ensures run != [] && Legal(s, 0, run) && Unrevived(s, 0, run)
    ensures Exec(s, 0, run) == Step(s, 0, e) && ClockAfter(0, run) == 0
  {
    hide Step, Enabled, Revives;
    run := [Timed(0, e)];
  }

  /** One more event in front of a run that revives nothing. */
  lemma Ahead(s: State, t: Timed, run: seq<Timed>) returns (longer: seq<Timed>)
    requires t.at == 0 && Enabled(s, 0, t.event) && !Revives(s, t.event) && run != []
    requires Legal(Step(s, 0, t.event), 0, run) && Unrevived(Step(s, 0, t.event), 0, run)
    ensures longer == [t] + run && Legal(s, 0, longer) && Unrevived(s, 0, longer)
    ensures Exec(s, 0, longer) == Exec(Step(s, 0, t.event), 0, run)
    ensures ClockAfter(0, longer) == ClockAfter(0, run)
  {
    hide Step, Enabled, Revives;
    longer := [t] + run;
    assert longer[1..] == run;
  }
}
