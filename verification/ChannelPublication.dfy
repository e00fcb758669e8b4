/**
 Concurrent publishers of channel manifests on one branch: every publisher
 reads the head, decides, builds a commit on what it read and asks for a
 non-forced update of the branch. Answers may be lost and requests may arrive
 late; a publisher that finds the branch moved starts again, three times at most.
 Source: scripts/release.js
 */
module ChannelPublication {
  import opened Wrappers
  import opened ChannelAdvance
  import opened Runs

  datatype Commit = Commit(parent: Option<nat>, tree: Tree)

  datatype Phase =
    | Reading(attempt: nat)
    | Deciding(attempt: nat, parent: nat)
    | Updating(attempt: nat, parent: nat, commit: nat)
    | Checking(attempt: nat, parent: nat)
    | Published
    | Failed

  /** A request to move the branch to `commit`, built on `parent`. */
  datatype Update = Update(who: nat, parent: nat, commit: nat)

  /**
   The repository and the publishers. `heads` lists every commit the branch
   has pointed to, the last one being the current head; `authors[i]` is the
   publisher that moved the branch from `heads[i]` to `heads[i + 1]`. `pending`
   are requests that were sent and have not arrived; they may arrive at any time
   or never.
   */
  datatype World = World(
    commits: seq<Commit>, heads: seq<nat>, authors: seq<nat>, phases: seq<Phase>, pending: set<Update>)

  /** The fixed surroundings: repository, manifest reader and who publishes what. */
  datatype Setting = Setting(site: Site, publishers: seq<Publisher>)

  datatype Step =
    | ReadHead(who: nat)
    | DecideAndBuild(who: nat, id: nat)
    | UpdateBranch(who: nat, delivered: bool, answered: bool)
    | ArriveLate(who: nat, parent: nat, commit: nat)
    | CheckHead(who: nat)
    | RequestFails(who: nat)

  const ATTEMPTS := 3

  /** The branch head, when the branch exists. */
  function Head(w: World): nat
    requires w.heads != []
  {
    w.heads[|w.heads| - 1]
  }

  function TreeOf(w: World, id: nat): Tree
    requires id < |w.commits|
  {
    w.commits[id].tree
  }

  predicate IsAncestor(commits: seq<Commit>, a: nat, c: nat) {
    || a == c
    || (&& c < |commits|
        && commits[c].parent.Some?
        && commits[c].parent.value < c
        && IsAncestor(commits, a, commits[c].parent.value))
  }

  /** The commit a publisher builds over the tree it read. */
  function BuiltOn(s: Setting, w: World, who: nat, parent: nat): Commit
    requires who < |s.publishers| && parent < |w.commits|
  {
    var p := s.publishers[who];
    Commit(Some(parent), WithFiles(TreeOf(w, parent), p.channel, p.files))
  }

  /** What the phase names are commits of the repository. */
  predicate PhaseFits(phase: Phase, commits: nat) {
    match phase
    case Deciding(_, parent) => parent < commits
    case Updating(_, parent, commit) => parent < commits && commit < commits
    case Checking(_, parent) => parent < commits
    case _ => true
  }

  predicate WellFormed(s: Setting, w: World) {
    && w.heads != []
    && |w.phases| == |s.publishers|
    && (forall i | 0 <= i < |w.heads| :: w.heads[i] < |w.commits|)
    && (forall who | 0 <= who < |w.phases| :: PhaseFits(w.phases[who], |w.commits|))
    && (forall u | u in w.pending :: u.who < |s.publishers| && u.parent < |w.commits| && u.commit < |w.commits|)
  }

  predicate Enabled(s: Setting, w: World, step: Step)
    requires WellFormed(s, w)
  {
    && step.who < |w.phases|
    && match step
       case ReadHead(who) => w.phases[who].Reading?
       case DecideAndBuild(who, id) =>
         && w.phases[who].Deciding?
         // Equal commits have equal identifiers; any other commit gets a new one.
         && (id == |w.commits| || (id < |w.commits| && w.commits[id] == BuiltOn(s, w, who, w.phases[who].parent)))
       case UpdateBranch(who, _, _) => w.phases[who].Updating?
       case ArriveLate(who, parent, commit) => Update(who, parent, commit) in w.pending
       case CheckHead(who) => w.phases[who].Checking?
       // Any other request, of the head, the tree, a blob, the new tree or the new commit.
       case RequestFails(who) => w.phases[who].Reading? || w.phases[who].Deciding? || w.phases[who].Checking?
  }

  /** A non-forced update is accepted when the head is an ancestor of the new commit. */
  predicate FastForwards(w: World, commit: nat)
    requires w.heads != []
  {
    IsAncestor(w.commits, Head(w), commit)
  }

  /** The branch after an update has arrived: moved if the update is accepted and not there already. */
  function Moved(w: World, who: nat, commit: nat): World
    requires w.heads != []
  {
    if FastForwards(w, commit) && commit != Head(w)
    then w.(heads := w.heads + [commit], authors := w.authors + [who])
    else w
  }

  function Apply(s: Setting, w: World, step: Step): World
    requires WellFormed(s, w) && Enabled(s, w, step)
  {
    match step
    case ReadHead(who) =>
      w.(phases := w.phases[who := Deciding(w.phases[who].attempt, Head(w))])
    case DecideAndBuild(who, id) =>
      var phase := w.phases[who];
      (match Decide(s.site, s.publishers[who], TreeOf(w, phase.parent))
       case Err(_) => w.(phases := w.phases[who := Failed])
       case Ok(Unchanged) => w.(phases := w.phases[who := Published])
       case Ok(Advance) =>
         w.(commits := if id == |w.commits| then w.commits + [BuiltOn(s, w, who, phase.parent)] else w.commits,
            phases := w.phases[who := Updating(phase.attempt, phase.parent, id)]))
    case UpdateBranch(who, delivered, answered) =>
      var phase := w.phases[who];
      if delivered then
        var known := FastForwards(w, phase.commit) && answered;
        Moved(w, who, phase.commit).(
          phases := w.phases[who := if known then Published else Checking(phase.attempt, phase.parent)])
      else
        w.(phases := w.phases[who := Checking(phase.attempt, phase.parent)],
           pending := w.pending + {Update(who, phase.parent, phase.commit)})
    case ArriveLate(who, parent, commit) =>
      Moved(w, who, commit).(pending := w.pending - {Update(who, parent, commit)})
    case CheckHead(who) =>
      var phase := w.phases[who];
      if Head(w) != phase.parent && phase.attempt < ATTEMPTS
      then w.(phases := w.phases[who := Reading(phase.attempt + 1)])
      else w.(phases := w.phases[who := Failed])
    case RequestFails(who) => w.(phases := w.phases[who := Failed])
  }

  // ---- The invariant -----------------------------------------------------

  /** Parents are older than their children. */
  predicate Ordered(commits: seq<Commit>) {
    forall c | 0 <= c < |commits| :: commits[c].parent.Some? ==> commits[c].parent.value < c
  }

  /** Every move of the branch put a commit on the very head its author had read and decided to advance. */
  predicate Justified(s: Setting, w: World)
    requires WellFormed(s, w)
  {
    && |w.heads| == |w.authors| + 1
    && forall i | 0 <= i < |w.authors| :: IsMove(s, w, w.authors[i], w.heads[i], w.heads[i + 1])
  }

  predicate IsMove(s: Setting, w: World, author: nat, before: nat, after: nat)
    requires before < |w.commits| && after < |w.commits|
  {
    && author < |s.publishers|
    && w.commits[after] == BuiltOn(s, w, author, before)
    && Decide(s.site, s.publishers[author], TreeOf(w, before)) == Ok(Advance)
  }

  /** What a publisher remembers is still true: it read a head, and it built its commit on that head. */
  predicate Remembers(s: Setting, w: World, who: nat)
    requires WellFormed(s, w) && who < |s.publishers|
  {
    match w.phases[who]
    case Deciding(_, parent) => parent in w.heads
    case Updating(_, parent, commit) =>
      && parent in w.heads
      && IsMove(s, w, who, parent, commit)
    case Checking(_, parent) => parent in w.heads
    case Published => exists i :: 0 <= i < |w.heads| && IsLive(s, w, who, i)
    case _ => true
  }

  /** A pending request was decided and built on a head of the branch, like any other. */
  predicate Sound(s: Setting, w: World, u: Update)
    requires WellFormed(s, w) && u in w.pending
  {
    u.parent in w.heads && IsMove(s, w, u.who, u.parent, u.commit)
  }

  /** At head `i` the channel held exactly this publisher's files. */
  predicate IsLive(s: Setting, w: World, who: nat, i: nat)
    requires WellFormed(s, w) && who < |s.publishers| && i < |w.heads|
  {
    FilesAt(TreeOf(w, w.heads[i]), s.publishers[who].channel) == Some(s.publishers[who].files)
  }

  predicate Inv(s: Setting, w: World) {
    && WellFormed(s, w)
    && Ordered(w.commits)
    && Justified(s, w)
    && (forall who | 0 <= who < |s.publishers| :: Remembers(s, w, who))
    && (forall u | u in w.pending :: Sound(s, w, u))
  }

  /** A branch that exists, with any content, and publishers that have not begun. */
  predicate Initial(s: Setting, w: World) {
    && WellFormed(s, w)
    && Ordered(w.commits)
    && |w.heads| == 1 && w.authors == [] && w.pending == {}
    && forall who | 0 <= who < |w.phases| :: w.phases[who] == Reading(1)
  }

  lemma {:induction false} AncestorIsOlder(commits: seq<Commit>, a: nat, c: nat)
    requires IsAncestor(commits, a, c)
    ensures a <= c
  {
    if a != c { AncestorIsOlder(commits, a, commits[c].parent.value); }
  }

  lemma {:induction false} LaterHeadsAreNewer(s: Setting, w: World, i: nat, j: nat)
    requires WellFormed(s, w) && Ordered(w.commits) && Justified(s, w)
    requires i < j < |w.heads|
    ensures w.heads[i] < w.heads[j]
    decreases j
  {
    assert IsMove(s, w, w.authors[j - 1], w.heads[j - 1], w.heads[j]);
    if i < j - 1 { LaterHeadsAreNewer(s, w, i, j - 1); }
  }

  /**
   The non-forced update is a compare-and-swap: a commit that is not already
   the head is accepted exactly when the head is still the one it was built on.
   */
  lemma FastForwardIsCompareAndSwap(s: Setting, w: World, who: nat, parent: nat, commit: nat)
    requires Inv(s, w) && parent in w.heads && commit < |w.commits| && commit != Head(w)
    requires IsMove(s, w, who, parent, commit)
    ensures FastForwards(w, commit) <==> Head(w) == parent
  {
    var i :| 0 <= i < |w.heads| && w.heads[i] == parent;
    if FastForwards(w, commit) {
      AncestorIsOlder(w.commits, Head(w), parent);
      if i < |w.heads| - 1 { LaterHeadsAreNewer(s, w, i, |w.heads| - 1); }
    } else {
      assert !IsAncestor(w.commits, Head(w), parent);
    }
  }

  // ---- Every step keeps the invariant ------------------------------------

  /** Nothing already on the branch or built is lost or changed. */
  predicate Extends(w: World, w': World) {
    && w.commits <= w'.commits
    && w.heads <= w'.heads
    && w.authors <= w'.authors
  }

  lemma OthersRemember(s: Setting, w: World, w': World, who: nat)
    requires WellFormed(s, w) && WellFormed(s, w') && Extends(w, w')
    requires who < |s.publishers| && w'.phases[who] == w.phases[who] && Remembers(s, w, who)
    ensures Remembers(s, w', who)
  {
    if w.phases[who].Published? {
      var i :| 0 <= i < |w.heads| && IsLive(s, w, who, i);
      assert IsLive(s, w', who, i);
    }
  }

  lemma JustifiedPersists(s: Setting, w: World, w': World)
    requires WellFormed(s, w) && WellFormed(s, w') && Justified(s, w)
    requires w.commits <= w'.commits && w'.heads == w.heads && w'.authors == w.authors
    ensures Justified(s, w')
  {
  }

  lemma StepKeepsInvariant(s: Setting, w: World, step: Step)
    requires Inv(s, w) && Enabled(s, w, step)
    ensures Inv(s, Apply(s, w, step)) && Extends(w, Apply(s, w, step))
  {
    var w' := Apply(s, w, step);
    BranchKeeps(s, w, step);
    PendingKeeps(s, w, step);
    forall other | 0 <= other < |s.publishers| ensures Remembers(s, w', other) {
      if other != step.who || step.ArriveLate? { OthersRemember(s, w, w', other); }
    }
  }

  /** The branch stays a chain of justified moves, and whoever took the step knows what it knows. */
  lemma BranchKeeps(s: Setting, w: World, step: Step)
    requires Inv(s, w) && Enabled(s, w, step)
    ensures var w' := Apply(s, w, step);
      && WellFormed(s, w') && Ordered(w'.commits) && Justified(s, w') && Extends(w, w')
      && (!step.ArriveLate? ==> Remembers(s, w', step.who))
      && (forall other | 0 <= other < |w.phases| && (other != step.who || step.ArriveLate?) ::
            w'.phases[other] == w.phases[other])
  {
    var w', who := Apply(s, w, step), step.who;
    match step {
      case DecideAndBuild(_, id) => DecideKeeps(s, w, who, id);
      case UpdateBranch(_, delivered, answered) => UpdateKeeps(s, w, who, delivered, answered);
      case ArriveLate(_, parent, commit) => ArrivalKeeps(s, w, who, parent, commit);
      case _ => QuietKeeps(s, w, step);
    }
  }

  lemma QuietKeeps(s: Setting, w: World, step: Step)
    requires Inv(s, w) && Enabled(s, w, step) && (step.ReadHead? || step.CheckHead? || step.RequestFails?)
    ensures var w' := Apply(s, w, step);
      WellFormed(s, w') && Ordered(w'.commits) && Justified(s, w') && Extends(w, w') && Remembers(s, w', step.who)
  {
    assert Head(w) == w.heads[|w.heads| - 1];
    JustifiedPersists(s, w, Apply(s, w, step));
  }

  lemma SoundPersists(s: Setting, w: World, w': World, u: Update)
    requires WellFormed(s, w) && WellFormed(s, w') && Extends(w, w')
    requires u in w.pending && u in w'.pending && Sound(s, w, u)
    ensures Sound(s, w', u)
  {
  }

  lemma PendingKeeps(s: Setting, w: World, step: Step)
    requires Inv(s, w) && Enabled(s, w, step)
    requires WellFormed(s, Apply(s, w, step)) && Extends(w, Apply(s, w, step))
    ensures forall u | u in Apply(s, w, step).pending :: Sound(s, Apply(s, w, step), u)
  {
    var w' := Apply(s, w, step);
    if step.UpdateBranch? && !step.delivered { assert Remembers(s, w, step.who); }
    forall u | u in w'.pending ensures Sound(s, w', u) {
      if u in w.pending { SoundPersists(s, w, w', u); }
    }
  }

  /** However late it arrives, an accepted update is a move from the head it was decided on. */
  lemma MovedIsJustified(s: Setting, w: World, w': World, who: nat, parent: nat, commit: nat)
    requires Inv(s, w) && WellFormed(s, w') && parent in w.heads && commit < |w.commits|
    requires IsMove(s, w, who, parent, commit)
    requires w'.commits == w.commits
    requires w'.heads == Moved(w, who, commit).heads && w'.authors == Moved(w, who, commit).authors
    ensures Justified(s, w') && Extends(w, w')
  {
    if commit != Head(w) { FastForwardIsCompareAndSwap(s, w, who, parent, commit); }
    if w'.heads == w.heads {
      JustifiedPersists(s, w, w');
    } else {
      MoveIsJustified(s, w, w', who);
    }
  }

  lemma ArrivalKeeps(s: Setting, w: World, who: nat, parent: nat, commit: nat)
    requires Inv(s, w) && Enabled(s, w, ArriveLate(who, parent, commit))
    ensures var w' := Apply(s, w, ArriveLate(who, parent, commit));
      WellFormed(s, w') && Ordered(w'.commits) && Justified(s, w') && Extends(w, w')
  {
    assert Sound(s, w, Update(who, parent, commit));
    MovedIsJustified(s, w, Apply(s, w, ArriveLate(who, parent, commit)), who, parent, commit);
  }

  /** One publisher changes its phase, and commits may be added. */
  lemma PhaseKeepsForm(s: Setting, w: World, w': World, who: nat, phase: Phase)
    requires WellFormed(s, w) && who < |w.phases|
    requires w.commits <= w'.commits && w'.heads == w.heads && w'.pending == w.pending
    requires w'.phases == w.phases[who := phase] && PhaseFits(phase, |w'.commits|)
    ensures WellFormed(s, w')
  {
    forall other | 0 <= other < |w'.phases| ensures PhaseFits(w'.phases[other], |w'.commits|) {
      if other != who { assert PhaseFits(w.phases[other], |w.commits|); }
    }
  }

  lemma DecideKeeps(s: Setting, w: World, who: nat, id: nat)
    requires Inv(s, w) && Enabled(s, w, DecideAndBuild(who, id))
    ensures var w' := Apply(s, w, DecideAndBuild(who, id));
      WellFormed(s, w') && Ordered(w'.commits) && Justified(s, w') && Extends(w, w') && Remembers(s, w', who)
  {
    var w' := Apply(s, w, DecideAndBuild(who, id));
    var parent := w.phases[who].parent;
    assert Remembers(s, w, who) && PhaseFits(w.phases[who], |w.commits|);
    PhaseKeepsForm(s, w, w', who, w'.phases[who]);
    JustifiedPersists(s, w, w');
    if Decide(s.site, s.publishers[who], TreeOf(w, parent)) == Ok(Unchanged) {
      UnchangedIsLive(s, w, w', who, parent);
    }
  }

  lemma UnchangedIsLive(s: Setting, w: World, w': World, who: nat, parent: nat)
    requires WellFormed(s, w) && WellFormed(s, w') && Extends(w, w') && who < |s.publishers| && parent in w.heads
    requires Decide(s.site, s.publishers[who], TreeOf(w, parent)) == Ok(Unchanged)
    ensures exists i :: 0 <= i < |w'.heads| && IsLive(s, w', who, i)
  {
    UnchangedIff(s.site, s.publishers[who], TreeOf(w, parent));
    var i :| 0 <= i < |w.heads| && w.heads[i] == parent;
    assert IsLive(s, w', who, i);
  }

  lemma UpdateKeeps(s: Setting, w: World, who: nat, delivered: bool, answered: bool)
    requires Inv(s, w) && Enabled(s, w, UpdateBranch(who, delivered, answered))
    ensures var w' := Apply(s, w, UpdateBranch(who, delivered, answered));
      WellFormed(s, w') && Ordered(w'.commits) && Justified(s, w') && Extends(w, w') && Remembers(s, w', who)
  {
    var w' := Apply(s, w, UpdateBranch(who, delivered, answered));
    assert Remembers(s, w, who);
    var phase := w.phases[who];
    if delivered {
      MovedIsJustified(s, w, w', who, phase.parent, phase.commit);
    } else {
      JustifiedPersists(s, w, w');
    }
    if w'.phases[who].Published? { BuiltFilesAreLive(s, w', who, phase.parent); }
  }

  lemma MoveIsJustified(s: Setting, w: World, w': World, who: nat)
    requires WellFormed(s, w) && WellFormed(s, w') && Justified(s, w)
    requires w'.commits == w.commits && w'.authors == w.authors + [who]
    requires |w'.heads| == |w.heads| + 1 && w.heads <= w'.heads
    requires IsMove(s, w, who, Head(w), Head(w'))
    ensures Justified(s, w')
  {
    forall i | 0 <= i < |w'.authors| ensures IsMove(s, w', w'.authors[i], w'.heads[i], w'.heads[i + 1]) {
      if i < |w.authors| { assert IsMove(s, w, w.authors[i], w.heads[i], w.heads[i + 1]); }
    }
  }

  lemma BuiltFilesAreLive(s: Setting, w: World, who: nat, parent: nat)
    requires WellFormed(s, w) && who < |s.publishers| && parent < |w.commits|
    requires w.commits[Head(w)] == BuiltOn(s, w, who, parent)
    ensures exists i :: 0 <= i < |w.heads| && IsLive(s, w, who, i)
  {
    WithFilesIsLocal(TreeOf(w, parent), s.publishers[who].channel, s.publishers[who].files);
    assert IsLive(s, w, who, |w.heads| - 1);
  }

  // ---- Whole runs --------------------------------------------------------

  ghost predicate Next(s: Setting, w: World, w': World) {
    WellFormed(s, w) && exists step :: Enabled(s, w, step) && w' == Apply(s, w, step)
  }

  ghost function Steps(s: Setting): (World, World) -> bool {
    (w, w') => Next(s, w, w')
  }

  lemma NextKeepsInvariant(s: Setting, w: World, w': World)
    requires Inv(s, w) && Next(s, w, w')
    ensures Inv(s, w') && Extends(w, w')
  {
    var step :| Enabled(s, w, step) && w' == Apply(s, w, step);
    StepKeepsInvariant(s, w, step);
  }

  lemma {:induction false} PathKeepsInvariant(s: Setting, path: seq<World>, i: nat)
    requires IsPath(Steps(s), path) && Inv(s, path[0]) && i < |path|
    ensures Inv(s, path[i]) && Extends(path[0], path[i])
  {
    if i > 0 {
      PathKeepsInvariant(s, path, i - 1);
      assert IsLink(Steps(s), path, i - 1);
      NextKeepsInvariant(s, path[i - 1], path[i]);
    }
  }

  lemma RunKeepsInvariant(s: Setting, w: World, w': World)
    requires Inv(s, w) && Leads(Steps(s), w, w')
    ensures Inv(s, w') && Extends(w, w')
  {
    var path :| IsPathBetween(Steps(s), path, w, w');
    PathKeepsInvariant(s, path, |path| - 1);
  }
}
