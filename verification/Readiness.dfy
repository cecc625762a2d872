/** What stands between work and landing, and what to do about it
    (src/readiness.ts, src/mergeGate.ts). */
module Readiness {
  import opened Common

  // -- the merge gate -------------------------------------------------------

  datatype MergeState = Clean | Unstable | Blocked | Behind | Dirty | DraftState | UnknownState | HasHooks
  datatype Mergeable = CanMerge | Conflicting | NotComputed

  datatype Situation =
    | GateReady | MergeableSoft | ChecksFail | NeedsReview | BehindBase | Conflicts | IsDraft | Computing | NoConflicts

  datatype Tone = ReadyTone | Warn | Attention | Info

  datatype Gate = Gate(situation: Situation, tone: Tone, mergeAllowed: bool, needsUpdate: bool)

  /** `describeMergeGate`. */
  function DescribeGate(state: Option<MergeState>, failed: nat, mergeable: Mergeable): (g: Gate)
    ensures g.mergeAllowed <==> state == Some(Clean) || state == Some(Unstable)
    ensures g.situation.GateReady? <==> state == Some(Clean)
    ensures g.situation.MergeableSoft? <==> state == Some(Unstable) && failed == 0
    ensures g.situation.NeedsReview? <==> state == Some(Blocked) && failed == 0
    ensures g.situation.BehindBase? <==> state == Some(Behind)
    ensures g.situation.Conflicts? <==> state == Some(Dirty) || (state.None? && mergeable.Conflicting?)
    ensures g.situation.IsDraft? <==> state == Some(DraftState)
    ensures (g.tone.ReadyTone? <==> g.situation.GateReady?) && (g.tone.Warn? <==> g.situation.MergeableSoft?)
    ensures g.tone.Info? <==> g.situation.IsDraft? || g.situation.Computing? || g.situation.NoConflicts?
    ensures g.situation.ChecksFail? <==> failed > 0 && (state == Some(Unstable) || state == Some(Blocked))
    ensures g.needsUpdate <==> g.situation.BehindBase? || g.situation.Conflicts?
    ensures g.situation.NoConflicts? <==> state.None? && mergeable.CanMerge?
    ensures g.situation.Computing? <==>
              state == Some(UnknownState) || state == Some(HasHooks) || (state.None? && mergeable.NotComputed?)
  {
    match state
    case Some(Clean) => Gate(GateReady, ReadyTone, true, false)
    case Some(Unstable) => if failed > 0 then Gate(ChecksFail, Attention, true, false) else Gate(MergeableSoft, Warn, true, false)
    case Some(Blocked) => if failed > 0 then Gate(ChecksFail, Attention, false, false) else Gate(NeedsReview, Attention, false, false)
    case Some(Behind) => Gate(BehindBase, Attention, false, true)
    case Some(Dirty) => Gate(Conflicts, Attention, false, true)
    case Some(DraftState) => Gate(IsDraft, Info, false, false)
    case Some(UnknownState) => Gate(Computing, Info, false, false)
    case Some(HasHooks) => Gate(Computing, Info, false, false)
    case None =>
      match mergeable
      case CanMerge => Gate(NoConflicts, Info, false, false)
      case Conflicting => Gate(Conflicts, Attention, false, true)
      case NotComputed => Gate(Computing, Info, false, false)
  }

  // -- blockers -------------------------------------------------------------

  datatype File = File(path: string, conflicted: bool)
  datatype GitState = GitState(files: seq<File>, unpushed: nat, ahead: nat, parentBranch: string)
  datatype PrPhase = Open | Merged | Closed
  datatype PrState = PrState(phase: PrPhase, mergeable: Mergeable)
  datatype PrChecks = PrChecks(requiredFailing: seq<string>, mergeState: Option<MergeState>)
  datatype Thread = Thread(weRepliedLast: bool)

  datatype Input = Input(git: Option<GitState>, pr: Option<PrState>, checks: Option<PrChecks>, comments: Option<seq<Thread>>)

  datatype Blocker =
    | ConflictedPaths(paths: seq<string>)
    | Uncommitted(files: nat)
    | Unpushed(commits: nat)
    | Unsubmitted
    | Diverged(mainline: string)
    | FailingChecks(checks: seq<string>)
    | Unaddressed(count: nat)
    | Disputed(count: nat)
    | ReviewRequired
    | Draft
    | ProposalClosed

  predicate IsOpen(input: Input) {
    input.pr.Some? && input.pr.value.phase.Open?
  }

  function HasWorkSinceMerge(git: GitState): bool {
    git.files != [] || git.unpushed > 0
  }

  function ConflictedIn(files: seq<File>): (paths: seq<string>)
    ensures paths == [] <==> forall i :: 0 <= i < |files| ==> !files[i].conflicted
  {
    if files == [] then [] else (if files[0].conflicted then [files[0].path] else []) + ConflictedIn(files[1..])
  }

  function Ours(threads: seq<Thread>): (n: nat)
    ensures n <= |threads|
  {
    if threads == [] then 0 else (if threads[0].weRepliedLast then 1 else 0) + Ours(threads[1..])
  }

  function Failing(input: Input): seq<string> {
    if input.checks.Some? then input.checks.value.requiredFailing else []
  }

  function GateOf(input: Input): Gate
    requires input.pr.Some?
  {
    DescribeGate(if input.checks.Some? then input.checks.value.mergeState else None, |Failing(input)|, input.pr.value.mergeable)
  }

  function Threads(input: Input): seq<Thread> {
    input.comments.GetOr([])
  }

  /** The blocker stands in the way of this work. */
  predicate Stands(input: Input, b: Blocker) {
    && input.git.Some?
    && var git, pr := input.git.value, input.pr;
    match b
    case ConflictedPaths(paths) => paths == ConflictedIn(git.files) && paths != []
    case Uncommitted(files) => ConflictedIn(git.files) == [] && files == |git.files| && files > 0
    case Unpushed(commits) => commits == git.unpushed && commits > 0
    case Unsubmitted => if pr.None? then git.ahead > 0 else pr.value.phase.Merged? && git.unpushed > 0
    case ProposalClosed => pr.Some? && pr.value.phase.Closed?
    case Diverged(mainline) =>
      IsOpen(input) && mainline == git.parentBranch && (GateOf(input).situation.Conflicts? || GateOf(input).situation.BehindBase?)
    case FailingChecks(checks) => IsOpen(input) && checks == Failing(input) && GateOf(input).situation.ChecksFail?
    case ReviewRequired => IsOpen(input) && GateOf(input).situation.NeedsReview?
    case Draft => IsOpen(input) && GateOf(input).situation.IsDraft?
    case Unaddressed(count) =>
      (pr.None? || IsOpen(input)) && count == |Threads(input)| - Ours(Threads(input)) && count > 0
    case Disputed(count) => (pr.None? || IsOpen(input)) && count == Ours(Threads(input)) && count > 0
  }

  function GateBlocker(input: Input, git: GitState): seq<Blocker>
    requires input.pr.Some?
  {
    match GateOf(input).situation
    case Conflicts => [Diverged(git.parentBranch)]
    case BehindBase => [Diverged(git.parentBranch)]
    case ChecksFail => [FailingChecks(Failing(input))]
    case NeedsReview => [ReviewRequired]
    case IsDraft => [Draft]
    case _ => []
  }

  function With(bs: seq<Blocker>, holds: bool, b: Blocker): seq<Blocker> {
    if holds then bs + [b] else bs
  }

  /** What the working copy and the proposal's phase say. */
  function WorkBlockers(input: Input, git: GitState): seq<Blocker> {
    var paths := ConflictedIn(git.files);
    var unproposed := if input.pr.None? then git.ahead > 0 else input.pr.value.phase.Merged? && git.unpushed > 0;
    var copy := if paths != [] then [ConflictedPaths(paths)] else if git.files != [] then [Uncommitted(|git.files|)] else [];
    With(With(With(copy, git.unpushed > 0, Unpushed(git.unpushed)), unproposed, Unsubmitted),
         input.pr.Some? && input.pr.value.phase.Closed?, ProposalClosed)
  }

  /** What the threads say. */
  function ReviewBlockers(bs: seq<Blocker>, threads: seq<Thread>): seq<Blocker> {
    var ours := Ours(threads);
    var theirs := |threads| - ours;
    With(With(bs, theirs > 0, Unaddressed(theirs)), ours > 0, Disputed(ours))
  }

  function Blockers(input: Input): seq<Blocker> {
    if input.git.None? then []
    else
      var git := input.git.value;
      var work := WorkBlockers(input, git);
      var gated := if IsOpen(input) then work + GateBlocker(input, git) else work;
      if input.pr.None? || IsOpen(input) then ReviewBlockers(gated, Threads(input)) else gated
  }

  /** What is detected is what stands, no more and no less. */
  lemma DetectsExactly(input: Input, b: Blocker)
    ensures b in Blockers(input) <==> Stands(input, b)
  {
    hide WorkBlockers, ReviewBlockers, GateBlocker, DescribeGate, GateOf, Ours, ConflictedIn;
    if input.git.Some? {
      var git := input.git.value;
      var work := WorkBlockers(input, git);
      var gated := if IsOpen(input) then work + GateBlocker(input, git) else work;
      WorkDetects(input, git, b);
      if input.pr.Some? { GateDetects(input, git, b); }
      ReviewDetects(gated, input, b);
    }
  }

  predicate OfWork(b: Blocker) {
    b.ConflictedPaths? || b.Uncommitted? || b.Unpushed? || b.Unsubmitted? || b.ProposalClosed?
  }

  lemma WorkDetects(input: Input, git: GitState, b: Blocker)
    requires input.git == Some(git)
    ensures b in WorkBlockers(input, git) <==> OfWork(b) && Stands(input, b)
  {
    hide ConflictedIn, GateOf, Ours;
  }

  lemma ReviewDetects(bs: seq<Blocker>, input: Input, b: Blocker)
    requires input.git.Some?
    ensures b in ReviewBlockers(bs, Threads(input)) <==>
            b in bs || ((b.Unaddressed? || b.Disputed?) && b.count > 0
                        && b.count == if b.Disputed? then Ours(Threads(input)) else |Threads(input)| - Ours(Threads(input)))
  {
    hide Ours;
  }

  lemma GateDetects(input: Input, git: GitState, b: Blocker)
    requires input.pr.Some? && input.git == Some(git)
    ensures b in GateBlocker(input, git) ==> b.Diverged? || b.FailingChecks? || b.ReviewRequired? || b.Draft?
    ensures IsOpen(input) && (b.Diverged? || b.FailingChecks? || b.ReviewRequired? || b.Draft?)
            ==> (b in GateBlocker(input, git) <==> Stands(input, b))
  {
  }

  /** `detectBlockers`: the list built up push by push. */
  method DetectBlockers(input: Input) returns (blockers: seq<Blocker>)
    ensures blockers == Blockers(input)
  {
    hide WorkBlockers, GateBlocker, Ours;
    if input.git.None? { return []; }
    var git := input.git.value;
    blockers := DetectInWork(input, git);
    if IsOpen(input) { blockers := blockers + GateBlocker(input, git); }
    if input.pr.None? || IsOpen(input) {
      var threads := Threads(input);
      var ours := Ours(threads);
      var theirs := |threads| - ours;
      if theirs > 0 { blockers := blockers + [Unaddressed(theirs)]; }
      if ours > 0 { blockers := blockers + [Disputed(ours)]; }
    }
  }

  method DetectInWork(input: Input, git: GitState) returns (blockers: seq<Blocker>)
    ensures blockers == WorkBlockers(input, git)
  {
    hide ConflictedIn;
    blockers := [];
    var conflicted := ConflictedIn(git.files);
    if conflicted != [] {
      blockers := blockers + [ConflictedPaths(conflicted)];
    } else if git.files != [] {
      blockers := blockers + [Uncommitted(|git.files|)];
    }
    if git.unpushed > 0 { blockers := blockers + [Unpushed(git.unpushed)]; }
    var unproposed := if input.pr.None? then git.ahead > 0 else input.pr.value.phase.Merged? && git.unpushed > 0;
    if unproposed { blockers := blockers + [Unsubmitted]; }
    if input.pr.Some? && input.pr.value.phase.Closed? { blockers := blockers + [ProposalClosed]; }
  }

  // -- the ladder -----------------------------------------------------------

  datatype CommitMode = Commit | CommitPush | CommitPr

  datatype Context = Context(base: string, commitMode: CommitMode)

  datatype Action =
    | ResolveConflicts
    | CommitWork(mode: CommitMode, onto: Option<string>)
    | ResolveComments(count: nat)
    | OpenPr(base: string)
    | Push
    | UpdateBranch(base: string)
    | FixChecks(failing: seq<string>)

  datatype Why = Unread | GateComputing

  datatype Rung =
    | Delegate(action: Action, blocker: Blocker)
    | Merge
    | Escalate(blocker: Blocker)
    | Wait(why: Why)
    | Landed
    | ReadyToDecide

  datatype Name =
    | NConflicted | NUncommitted | NUnpushed | NUnsubmitted | NDiverged | NFailing | NUnaddressed | NDisputed
    | NReview | NDraft | NClosed

  function NameOf(b: Blocker): Name {
    match b
    case ConflictedPaths(_) => NConflicted
    case Uncommitted(_) => NUncommitted
    case Unpushed(_) => NUnpushed
    case Unsubmitted => NUnsubmitted
    case Diverged(_) => NDiverged
    case FailingChecks(_) => NFailing
    case Unaddressed(_) => NUnaddressed
    case Disputed(_) => NDisputed
    case ReviewRequired => NReview
    case Draft => NDraft
    case ProposalClosed => NClosed
  }

  /** The first blocker of that name. */
  function Find(bs: seq<Blocker>, name: Name): (b: Option<Blocker>)
    ensures b.Some? ==> b.value in bs && NameOf(b.value) == name
    ensures b.None? ==> forall x :: x in bs ==> NameOf(x) != name
  {
    if bs == [] then None else if NameOf(bs[0]) == name then Some(bs[0]) else Find(bs[1..], name)
  }

  function NextRung(input: Input, ctx: Context): Rung {
    if input.git.None? then Wait(Unread)
    else if input.pr.Some? && input.pr.value.phase.Merged? && !HasWorkSinceMerge(input.git.value) then Landed
    else
      var bs := Blockers(input);
      var conflicted, uncommitted, early := Find(bs, NConflicted), Find(bs, NUncommitted), Find(bs, NUnaddressed);
      if conflicted.Some? then Delegate(ResolveConflicts, conflicted.value)
      else if uncommitted.Some? then
        var mode := if ctx.commitMode.CommitPr? && IsOpen(input) then CommitPush else ctx.commitMode;
        Delegate(CommitWork(mode, if mode.CommitPr? then Some(ctx.base) else None), uncommitted.value)
      else if !IsOpen(input) && early.Some? then Delegate(ResolveComments(early.value.count), early.value)
      else LaterRung(input, ctx, bs)
  }

  function LaterRung(input: Input, ctx: Context, bs: seq<Blocker>): Rung {
    var unsubmitted, unpushed, diverged, failing := Find(bs, NUnsubmitted), Find(bs, NUnpushed), Find(bs, NDiverged), Find(bs, NFailing);
    if unsubmitted.Some? then Delegate(OpenPr(ctx.base), unsubmitted.value)
    else if unpushed.Some? then Delegate(Push, unpushed.value)
    else if diverged.Some? then Delegate(UpdateBranch(ctx.base), diverged.value)
    else if failing.Some? then Delegate(FixChecks(failing.value.checks), failing.value)
    else LastRung(input, bs)
  }

  function LastRung(input: Input, bs: seq<Blocker>): Rung {
    var review, draft, closed := Find(bs, NReview), Find(bs, NDraft), Find(bs, NClosed);
    var unaddressed, disputed := Find(bs, NUnaddressed), Find(bs, NDisputed);
    if review.Some? then Escalate(review.value)
    else if draft.Some? then Escalate(draft.value)
    else if closed.Some? then Escalate(closed.value)
    else if unaddressed.Some? then Delegate(ResolveComments(unaddressed.value.count), unaddressed.value)
    else if disputed.Some? then Escalate(disputed.value)
    else if !IsOpen(input) then ReadyToDecide
    else
      var gate := GateOf(input);
      if gate.situation.Computing? then Wait(GateComputing)
      else if gate.mergeAllowed then Merge
      else ReadyToDecide
  }

  /** How blocking a blocker is; before a proposal is open, findings come right
      after the working copy. */
  function Rank(open: bool, b: Blocker): nat {
    match b
    case ConflictedPaths(_) => 0
    case Uncommitted(_) => 1
    case Unaddressed(_) => if open then 10 else 2
    case Unsubmitted => 3
    case Unpushed(_) => 4
    case Diverged(_) => 5
    case FailingChecks(_) => 6
    case ReviewRequired => 7
    case Draft => 8
    case ProposalClosed => 9
    case Disputed(_) => 11
  }

  predicate IsHumanOwned(b: Blocker) {
    b.ReviewRequired? || b.Draft? || b.ProposalClosed? || b.Disputed?
  }

  /** `r` is the way to handle a blocker of `bs` at least as blocking as `b`. */
  predicate Handles(open: bool, r: Rung, bs: seq<Blocker>, b: Blocker) {
    && (r.Delegate? || r.Escalate?) && r.blocker in bs
    && Rank(open, r.blocker) <= Rank(open, b)
    && (r.Escalate? <==> IsHumanOwned(r.blocker))
  }

  lemma LastHandles(input: Input, bs: seq<Blocker>, b: Blocker)
    requires b in bs && Rank(IsOpen(input), b) >= 7
    ensures Handles(IsOpen(input), LastRung(input, bs), bs, b)
  {
    hide Find;
    assert Find(bs, NameOf(b)).Some?;
  }

  lemma LaterHandles(input: Input, ctx: Context, bs: seq<Blocker>, b: Blocker)
    requires b in bs && Rank(IsOpen(input), b) >= 3
    ensures Handles(IsOpen(input), LaterRung(input, ctx, bs), bs, b)
  {
    hide LastRung, Find;
    assert Find(bs, NameOf(b)).Some?;
    if Rank(IsOpen(input), b) >= 7 { LastHandles(input, bs, b); }
  }

  /** With anything in the way the ladder names the most blocking thing, hands the
      agent what an agent can fix, and leaves the rest to a person; with nothing
      in the way it names nothing. */
  lemma NamesTheMostBlocking(input: Input, ctx: Context)
    requires input.git.Some?
    ensures var r := NextRung(input, ctx);
      if Blockers(input) == [] then r.Merge? || r.ReadyToDecide? || r == Wait(GateComputing) || r.Landed?
      else forall b :: b in Blockers(input) ==> Handles(IsOpen(input), r, Blockers(input), b)
  {
    hide Blockers, Stands, GateOf, Find, Handles;
    var bs := Blockers(input);
    forall b | b in bs ensures Handles(IsOpen(input), NextRung(input, ctx), bs, b) {
      MostBlocking(input, ctx, b);
    }
  }

  lemma MostBlocking(input: Input, ctx: Context, b: Blocker)
    requires input.git.Some? && b in Blockers(input)
    ensures Handles(IsOpen(input), NextRung(input, ctx), Blockers(input), b)
  {
    hide Blockers, Stands, LaterRung, Find, ConflictedIn;
    var bs := Blockers(input);
    DetectsExactly(input, b);
    NothingAfterLanding(input, b);
    assert Find(bs, NameOf(b)).Some?;
    if Rank(IsOpen(input), b) >= 3 { LaterHandles(input, ctx, bs, b); }
  }

  /** What the agent is told to do about a blocker, with what the blocker and the
      session say; nothing about what a person owns. */
  predicate IsRemedy(input: Input, ctx: Context, b: Blocker, action: Action) {
    || (b.ConflictedPaths? && action == ResolveConflicts)
    || (b.Uncommitted? && action == if ctx.commitMode.CommitPr? && !IsOpen(input) then CommitWork(CommitPr, Some(ctx.base))
                                    else CommitWork(if ctx.commitMode.CommitPr? then CommitPush else ctx.commitMode, None))
    || (b.Unaddressed? && action == ResolveComments(b.count))
    || (b.Unsubmitted? && action == OpenPr(ctx.base))
    || (b.Unpushed? && action == Push)
    || (b.Diverged? && action == UpdateBranch(ctx.base))
    || (b.FailingChecks? && action == FixChecks(b.checks))
  }

  /** The threads where the last word is ours. */
  function OursIn(threads: seq<Thread>): set<int> {
    set i | 0 <= i < |threads| && threads[i].weRepliedLast
  }

  lemma {:induction false} OursMore(threads: seq<Thread>, t: Thread)
    ensures Ours(threads + [t]) == Ours(threads) + if t.weRepliedLast then 1 else 0
  {
    if threads == [] {
      assert [] + [t] == [t] && [t][1..] == [];
    } else {
      assert (threads + [t])[1..] == threads[1..] + [t];
      OursMore(threads[1..], t);
    }
  }

  lemma LastOurs(threads: seq<Thread>)
    requires threads != []
    ensures var last := |threads| - 1;
      last !in OursIn(threads[..last]) && OursIn(threads) == OursIn(threads[..last]) + if threads[last].weRepliedLast then {last} else {}
  {
  }

  lemma NoneOurs()
    ensures OursIn([]) == {}
  {
  }

  lemma {:induction false} OursCounts(threads: seq<Thread>)
    ensures Ours(threads) == |OursIn(threads)|
  {
    hide OursIn;
    if threads == [] {
      NoneOurs();
    } else {
      var last := |threads| - 1;
      OursCounts(threads[..last]);
      OursMore(threads[..last], threads[last]);
      LastOurs(threads);
      assert threads[..last] + [threads[last]] == threads;
    }
  }

  /** The conflicted paths come in the order of the files, one for each
      conflicted file. */
  lemma {:induction false} ConflictsInOrder(before: seq<File>, f: File)
    ensures ConflictedIn(before + [f]) == ConflictedIn(before) + if f.conflicted then [f.path] else []
  {
    if before == [] {
      assert [] + [f] == [f] && [f][1..] == [];
    } else {
      var rest := before[1..];
      assert (before + [f])[1..] == rest + [f];
      ConflictsInOrder(rest, f);
      var head, last: seq<string> := if before[0].conflicted then [before[0].path] else [], if f.conflicted then [f.path] else [];
      assert head + (ConflictedIn(rest) + last) == head + ConflictedIn(rest) + last;
    }
  }

  /** Whenever the ladder hands work to an agent, it is the remedy for the blocker
      it names, and that blocker stands: its counts are those of the threads, its
      checks the ones required and failing, a commit opens a proposal only while
      none is open. */
  lemma DelegatesTheRemedy(input: Input, ctx: Context)
    ensures var r := NextRung(input, ctx);
      r.Delegate? ==>
        && IsRemedy(input, ctx, r.blocker, r.action) && Stands(input, r.blocker)
        && (r.action.ResolveComments? ==> r.action.count == |Threads(input)| - |OursIn(Threads(input))|)
        && (r.action.FixChecks? ==> r.action.failing == input.checks.value.requiredFailing && r.action.failing != [])
  {
    hide Blockers, Stands, Find, GateOf, Ours, OursIn;
    var r := NextRung(input, ctx);
    if r.Delegate? {
      DetectsExactly(input, r.blocker);
      OursCounts(Threads(input));
      ParametersStand(input, r.blocker);
    }
  }

  lemma ParametersStand(input: Input, b: Blocker)
    requires Stands(input, b)
    ensures b.Unaddressed? ==> b.count == |Threads(input)| - Ours(Threads(input))
    ensures b.FailingChecks? ==> input.checks.Some? && b.checks == input.checks.value.requiredFailing && b.checks != []
  {
    hide Ours, ConflictedIn;
  }

  /** The rungs that name no blocker: unread exactly when the working copy has not
      been read; landed exactly when the proposal was merged and there is no work
      since; and with no proposal open, the decision is left exactly when nothing
      is in the way and it has not landed. */
  lemma RestsExactly(input: Input, ctx: Context)
    ensures var r := NextRung(input, ctx);
      var landed := input.git.Some? && input.pr.Some? && input.pr.value.phase.Merged? && input.git.value.files == [] && input.git.value.unpushed == 0;
      && (r == Wait(Unread) <==> input.git.None?)
      && (r.Landed? <==> landed)
      && (!IsOpen(input) ==> (r.ReadyToDecide? <==> input.git.Some? && !landed && Blockers(input) == []))
  {
    hide Blockers, Stands, Find, GateOf, Handles;
    if input.git.Some? {
      NamesTheMostBlocking(input, ctx);
      if Blockers(input) != [] {
        assert Handles(IsOpen(input), NextRung(input, ctx), Blockers(input), Blockers(input)[0]);
        NamesBlocker(IsOpen(input), NextRung(input, ctx), Blockers(input), Blockers(input)[0]);
        DetectsExactly(input, Blockers(input)[0]);
        NothingAfterLanding(input, Blockers(input)[0]);
      } else if !IsOpen(input) {
        NoGateWithoutProposal(input, ctx);
      }
    }
  }

  lemma NamesBlocker(open: bool, r: Rung, bs: seq<Blocker>, b: Blocker)
    requires Handles(open, r, bs, b)
    ensures r.Delegate? || r.Escalate?
  {
  }

  lemma NothingAfterLanding(input: Input, b: Blocker)
    ensures Stands(input, b) ==> !(input.pr.Some? && input.pr.value.phase.Merged? && !HasWorkSinceMerge(input.git.value))
  {
  }

  /** The ladder says merge exactly for an open proposal with nothing in the way
      whose gate is clean, or unstable with nothing failing; it waits on the gate
      exactly while nothing is in the way and the gate is still computing; and on
      an open proposal it leaves the decision exactly when nothing is in the way
      and all that is known is that there are no conflicts. */
  lemma MergesOnlyWhenClear(input: Input, ctx: Context)
    requires input.git.Some? && IsOpen(input)
    ensures var r, clear, gate := NextRung(input, ctx), Blockers(input) == [], GateOf(input);
      && (r.Merge? <==> clear && (gate.situation.GateReady? || gate.situation.MergeableSoft?))
      && (r == Wait(GateComputing) <==> clear && gate.situation.Computing?)
      && (r.ReadyToDecide? <==> clear && gate.situation.NoConflicts?)
  {
    hide Blockers, Stands, NextRung, DescribeGate;
    NamesTheMostBlocking(input, ctx);
    if Blockers(input) == [] {
      ClearRung(input, ctx);
      ClearGate(input);
    } else {
      assert Handles(IsOpen(input), NextRung(input, ctx), Blockers(input), Blockers(input)[0]);
    }
  }

  lemma ClearRung(input: Input, ctx: Context)
    requires input.git.Some? && IsOpen(input) && Blockers(input) == []
    ensures NextRung(input, ctx) == if GateOf(input).situation.Computing? then Wait(GateComputing)
                                    else if GateOf(input).mergeAllowed then Merge else ReadyToDecide
  {
    hide Blockers, GateOf;
  }

  lemma ClearGate(input: Input)
    requires input.git.Some? && IsOpen(input) && Blockers(input) == []
    ensures var gate := GateOf(input);
      gate.situation.Computing? || gate.situation.NoConflicts? || (gate.mergeAllowed && (gate.situation.GateReady? || gate.situation.MergeableSoft?))
    ensures GateOf(input).situation.NoConflicts? ==> !GateOf(input).mergeAllowed
  {
    var git := input.git.value;
    if GateBlocker(input, git) != [] {
      var b := GateBlocker(input, git)[0];
      GateDetects(input, git, b);
      DetectsExactly(input, b);
    }
  }

  /** Without an open proposal the ladder never merges and never waits on a gate. */
  lemma NoGateWithoutProposal(input: Input, ctx: Context)
    requires !IsOpen(input)
    ensures !NextRung(input, ctx).Merge? && NextRung(input, ctx) != Wait(GateComputing)
  {
    hide Blockers, Find;
  }
}
