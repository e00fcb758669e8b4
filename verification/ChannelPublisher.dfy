/**
 The publishing loop itself, with arbitrary steps of the other publishers
 between its requests.
 Source: scripts/release.js
 */
module ChannelPublisher {
  import opened Wrappers
  import opened ChannelAdvance
  import opened ChannelPublication
  import opened ChannelSafety
  import opened Runs

  /** What happens around one attempt: steps of the others, the fate of the update, and which other requests fail. */
  datatype Surroundings = Surroundings(
    beforeRead: seq<Step>, beforeBuild: seq<Step>, beforeUpdate: seq<Step>, beforeCheck: seq<Step>,
    delivered: bool, answered: bool, readFails: bool, buildFails: bool, checkFails: bool)

  /** A step of another publisher, or the late arrival of anyone's request. */
  predicate IsOutside(me: nat, step: Step) {
    step.who != me || step.ArriveLate?
  }

  /** The others take the steps they can. */
  function Disturb(s: Setting, w: World, me: nat, others: seq<Step>): World
    requires Inv(s, w)
    decreases |others|
  {
    if others == [] then w
    else if IsOutside(me, others[0]) && Enabled(s, w, others[0]) then
      StepKeepsInvariant(s, w, others[0]);
      Disturb(s, Apply(s, w, others[0]), me, others[1..])
    else Disturb(s, w, me, others[1..])
  }

  /** `w'` comes after `w` in a run. */
  ghost predicate Later(s: Setting, w: World, w': World) {
    Inv(s, w) && Inv(s, w') && Extends(w, w') && |w.phases| == |w'.phases| && Leads(Steps(s), w, w')
  }

  lemma LaterIsReflexive(s: Setting, w: World)
    requires Inv(s, w)
    ensures Later(s, w, w)
  {
    LeadsToItself(Steps(s), w);
  }

  lemma LaterIsTransitive(s: Setting, a: World, b: World, c: World)
    requires Later(s, a, b) && Later(s, b, c)
    ensures Later(s, a, c)
  {
    LeadsOn(Steps(s), a, b, c);
  }

  lemma LaterByStep(s: Setting, w: World, step: Step)
    requires Inv(s, w) && Enabled(s, w, step)
    ensures Later(s, w, Apply(s, w, step))
  {
    StepKeepsInvariant(s, w, step);
    LeadsByStep(Steps(s), w, Apply(s, w, step));
  }

  lemma LaterStep(s: Setting, a: World, b: World, step: Step)
    requires Later(s, a, b) && Enabled(s, b, step)
    ensures Later(s, a, Apply(s, b, step))
  {
    LaterByStep(s, b, step);
    LaterIsTransitive(s, a, b, Apply(s, b, step));
  }

  /** A reachable world stays reachable, so what holds of every run holds after a publication. */
  lemma LaterIsReachable(s: Setting, w: World, w': World)
    requires Reachable(s, w) && Later(s, w, w')
    ensures Reachable(s, w')
  {
    var start :| Initial(s, start) && Leads(Steps(s), start, w);
    LeadsOn(Steps(s), start, w, w');
  }

  lemma {:induction false} DisturbIsLater(s: Setting, w: World, me: nat, others: seq<Step>)
    requires Inv(s, w) && me < |w.phases|
    ensures Later(s, w, Disturb(s, w, me, others)) && Disturb(s, w, me, others).phases[me] == w.phases[me]
    decreases |others|
  {
    if others == [] {
      LaterIsReflexive(s, w);
    } else if IsOutside(me, others[0]) && Enabled(s, w, others[0]) {
      LaterByStep(s, w, others[0]);
      OtherPhaseStays(s, w, me, others[0]);
      DisturbIsLater(s, Apply(s, w, others[0]), me, others[1..]);
      LaterIsTransitive(s, w, Apply(s, w, others[0]), Disturb(s, Apply(s, w, others[0]), me, others[1..]));
    } else {
      DisturbIsLater(s, w, me, others[1..]);
    }
  }

  lemma OtherPhaseStays(s: Setting, w: World, me: nat, step: Step)
    requires WellFormed(s, w) && Enabled(s, w, step) && IsOutside(me, step) && me < |w.phases|
    ensures Apply(s, w, step).phases[me] == w.phases[me] && |Apply(s, w, step).phases| == |w.phases|
  {
  }

  /** The publisher's files are those of the channel at one of the heads from `start` on. */
  predicate LiveSince(s: Setting, w: World, me: nat, start: nat)
    requires WellFormed(s, w) && me < |s.publishers|
  {
    exists i :: start <= i < |w.heads| && IsLive(s, w, me, i)
  }

  /** How one attempt ends: published, refused or broken, or overtaken by another publisher. */
  datatype Outcome = Done | Refused | Conflict

  /** The hosted repository, shared with the other publishers. */
  class Repository {
    const s: Setting
    var commits: seq<Commit>
    var heads: seq<nat>
    var authors: seq<nat>
    var phases: seq<Phase>
    var pending: set<Update>

    constructor (s: Setting, w: World)
      ensures this.s == s && Now() == w
    {
      this.s := s;
      commits, heads, authors, phases, pending := w.commits, w.heads, w.authors, w.phases, w.pending;
    }

    function Now(): World
      reads this
    {
      World(commits, heads, authors, phases, pending)
    }

    method OthersMove(me: nat, others: seq<Step>)
      requires Inv(s, Now()) && me < |phases|
      modifies this
      ensures Later(s, old(Now()), Now()) && phases[me] == old(phases)[me]
    {
      DisturbIsLater(s, Now(), me, others);
      var w := Disturb(s, Now(), me, others);
      commits, heads, authors, phases, pending := w.commits, w.heads, w.authors, w.phases, w.pending;
    }

    /** A request fails, and with it the publication. */
    method GiveUp(me: nat)
      requires Inv(s, Now()) && me < |phases| && (phases[me].Reading? || phases[me].Deciding? || phases[me].Checking?)
      modifies this
      ensures Later(s, old(Now()), Now()) && phases[me] == Failed
    {
      ghost var w := Now();
      LaterByStep(s, w, RequestFails(me));
      phases := phases[me := Failed];
      assert Now() == Apply(s, w, RequestFails(me));
    }

    /** Read the branch head. */
    method ReadBranch(me: nat, others: seq<Step>, attempt: nat) returns (parent: nat)
      requires Inv(s, Now()) && me < |phases| && phases[me] == Reading(attempt)
      modifies this
      ensures Later(s, old(Now()), Now())
      ensures parent == Head(Now()) && phases[me] == Deciding(attempt, parent)
    {
      ghost var w0 := Now();
      OthersMove(me, others);
      ghost var w1 := Now();
      LaterStep(s, w0, w1, ReadHead(me));
      parent := heads[|heads| - 1];
      phases := phases[me := Deciding(attempt, parent)];
      assert Now() == Apply(s, w1, ReadHead(me));
    }

    /** Decide on the tree of the head that was read, and build a commit over it to advance. */
    method DecideOnHead(me: nat, others: seq<Step>, attempt: nat, parent: nat) returns (r: Result<Option<nat>, Refusal>)
      requires Inv(s, Now()) && me < |phases| && phases[me] == Deciding(attempt, parent)
      modifies this
      ensures Later(s, old(Now()), Now())
      ensures r.Err? ==> phases[me] == Failed
      ensures r == Ok(None) ==>
        phases[me] == Published
          && FilesAt(TreeOf(Now(), parent), s.publishers[me].channel) == Some(s.publishers[me].files)
      ensures r.Ok? && r.value.Some? ==> phases[me] == Updating(attempt, parent, r.value.value)
    {
      ghost var w0 := Now();
      OthersMove(me, others);
      var p, tree := s.publishers[me], commits[parent].tree;
      LaterStep(s, w0, Now(), DecideAndBuild(me, |commits|));
      UnchangedIff(s.site, p, tree);
      match Decide(s.site, p, tree) {
        case Err(refusal) =>
          phases := phases[me := Failed];
          return Err(refusal);
        case Ok(Unchanged) =>
          phases := phases[me := Published];
          return Ok(None);
        case Ok(Advance) =>
          var commit := |commits|;
          commits := commits + [Commit(Some(parent), WithFiles(tree, p.channel, p.files))];
          phases := phases[me := Updating(attempt, parent, commit)];
          return Ok(Some(commit));
      }
    }

    /** Ask for a non-forced update. Only an accepted and answered request is known to have succeeded. */
    method UpdateRef(me: nat, others: seq<Step>, attempt: nat, parent: nat, commit: nat, delivered: bool,
        answered: bool)
      returns (acknowledged: bool)
      requires Inv(s, Now()) && me < |phases| && phases[me] == Updating(attempt, parent, commit)
      modifies this
      ensures Later(s, old(Now()), Now())
      ensures acknowledged ==> phases[me] == Published && IsLive(s, Now(), me, |heads| - 1)
      ensures !acknowledged ==> phases[me] == Checking(attempt, parent)
    {
      ghost var w0 := Now();
      OthersMove(me, others);
      ghost var w1 := Now();
      LaterStep(s, w0, w1, UpdateBranch(me, delivered, answered));
      var head := heads[|heads| - 1];
      var accepted := delivered && IsAncestor(commits, head, commit);
      if accepted && commit != head {
        heads, authors := heads + [commit], authors + [me];
      }
      acknowledged := accepted && answered;
      if !delivered {
        pending := pending + {Update(me, parent, commit)};
      }
      phases := phases[me := if acknowledged then Published else Checking(attempt, parent)];
      assert Now() == Apply(s, w1, UpdateBranch(me, delivered, answered));
      AcceptedIsLive(s, w1, me, delivered, answered);
    }

    /** After a failed request: a conflict, to be tried again, if the branch has moved. */
    method CheckBranch(me: nat, others: seq<Step>, attempt: nat, parent: nat) returns (retry: bool)
      requires Inv(s, Now()) && me < |phases| && phases[me] == Checking(attempt, parent)
      modifies this
      ensures Later(s, old(Now()), Now())
      ensures retry <==> Head(Now()) != parent && attempt < ATTEMPTS
      ensures phases[me] == if retry then Reading(attempt + 1) else Failed
    {
      ghost var w0 := Now();
      OthersMove(me, others);
      ghost var w1 := Now();
      LaterStep(s, w0, w1, CheckHead(me));
      var latest := heads[|heads| - 1];
      retry := latest != parent && attempt < ATTEMPTS;
      phases := phases[me := if retry then Reading(attempt + 1) else Failed];
      assert Now() == Apply(s, w1, CheckHead(me));
    }

    method UpdateAndCheck(me: nat, around: Surroundings, attempt: nat, parent: nat, commit: nat) returns (r: Outcome)
      requires Inv(s, Now()) && me < |phases| && phases[me] == Updating(attempt, parent, commit)
      modifies this
      ensures Later(s, old(Now()), Now())
      ensures r == Done ==> phases[me] == Published && LiveSince(s, Now(), me, |old(heads)| - 1)
      ensures r == Refused ==> phases[me] == Failed
      ensures r == Conflict ==> attempt < ATTEMPTS && phases[me] == Reading(attempt + 1)
    {
      ghost var w0 := Now();
      var acknowledged := UpdateRef(me, around.beforeUpdate, attempt, parent, commit, around.delivered,
        around.answered);
      if acknowledged { return Done; }
      ghost var w1 := Now();
      if around.checkFails {
        GiveUp(me);
        LaterIsTransitive(s, w0, w1, Now());
        return Refused;
      }
      var retry := CheckBranch(me, around.beforeCheck, attempt, parent);
      LaterIsTransitive(s, w0, w1, Now());
      return if retry then Conflict else Refused;
    }

    /** One attempt. A publisher that lost a race, or an answer, is ready to read again. */
    method PublishChannelTree(me: nat, around: Surroundings, attempt: nat) returns (r: Outcome)
      requires Inv(s, Now()) && me < |phases| && phases[me] == Reading(attempt)
      modifies this
      ensures Later(s, old(Now()), Now())
      ensures r == Done ==> phases[me] == Published && LiveSince(s, Now(), me, |old(heads)| - 1)
      ensures r == Refused ==> phases[me] == Failed
      ensures r == Conflict ==> attempt < ATTEMPTS && phases[me] == Reading(attempt + 1)
    {
      ghost var w0 := Now();
      if around.readFails {
        GiveUp(me);
        return Refused;
      }
      var parent := ReadBranch(me, around.beforeRead, attempt);
      ghost var w1 := Now();
      if around.buildFails {
        GiveUp(me);
        LaterIsTransitive(s, w0, w1, Now());
        return Refused;
      }
      var advance := DecideOnHead(me, around.beforeBuild, attempt, parent);
      LaterIsTransitive(s, w0, w1, Now());
      if advance.Err? { return Refused; }
      if advance.value.None? {
        HeadWasLive(s, w0, w1, Now(), me);
        return Done;
      }
      ghost var w2 := Now();
      r := UpdateAndCheck(me, around, attempt, parent, advance.value.value);
      LaterIsTransitive(s, w0, w2, Now());
      if r == Done { LiveSinceEarlier(s, Now(), me, |w2.heads| - 1, |w0.heads| - 1); }
    }

    /**
     The retry loop: three attempts at most. It ends published or failed, and
     when published, the branch has held exactly these four files at some head
     since the call began.
     */
    method PublishMutableChannelManifests(me: nat, around: nat -> Surroundings) returns (published: bool)
      requires Inv(s, Now()) && me < |phases| && phases[me] == Reading(1)
      modifies this
      ensures Later(s, old(Now()), Now())
      ensures Reachable(s, old(Now())) ==> Reachable(s, Now())
      ensures published ==> phases[me] == Published && LiveSince(s, Now(), me, |old(heads)| - 1)
      ensures !published ==> phases[me] == Failed
    {
      ghost var w0 := Now();
      LaterIsReflexive(s, w0);
      var attempt := 1;
      while attempt <= ATTEMPTS
        invariant 1 <= attempt <= ATTEMPTS
        invariant Later(s, w0, Now())
        invariant phases[me] == Reading(attempt)
      {
        ghost var w1 := Now();
        var r := PublishChannelTree(me, around(attempt), attempt);
        LaterIsTransitive(s, w0, w1, Now());
        if Reachable(s, w0) { LaterIsReachable(s, w0, Now()); }
        match r {
          case Done =>
            LiveSinceEarlier(s, Now(), me, |w1.heads| - 1, |w0.heads| - 1);
            return true;
          case Refused =>
            return false;
          case Conflict =>
            attempt := attempt + 1;
        }
      }
      assert false;
    }
  }

  lemma LiveSinceEarlier(s: Setting, w: World, me: nat, start: nat, earlier: nat)
    requires WellFormed(s, w) && me < |s.publishers| && LiveSince(s, w, me, start) && earlier <= start
    ensures LiveSince(s, w, me, earlier)
  {
    var i :| start <= i < |w.heads| && IsLive(s, w, me, i);
    assert earlier <= i;
  }

  /** Files found on the head that was read are live at that head, which is no older than the call. */
  lemma HeadWasLive(s: Setting, start: World, read: World, w: World, me: nat)
    requires Later(s, start, read) && Later(s, read, w) && me < |s.publishers|
    requires FilesAt(TreeOf(w, Head(read)), s.publishers[me].channel) == Some(s.publishers[me].files)
    ensures LiveSince(s, w, me, |start.heads| - 1)
  {
    assert w.heads[|read.heads| - 1] == Head(read);
    assert IsLive(s, w, me, |read.heads| - 1);
  }

  lemma AcceptedIsLive(s: Setting, w: World, me: nat, delivered: bool, answered: bool)
    requires Inv(s, w) && Enabled(s, w, UpdateBranch(me, delivered, answered))
    ensures var w' := Apply(s, w, UpdateBranch(me, delivered, answered));
      WellFormed(s, w') && (w'.phases[me].Published? ==> IsLive(s, w', me, |w'.heads| - 1))
  {
    assert Remembers(s, w, me);
    UpdateKeeps(s, w, me, delivered, answered);
    WithFilesIsLocal(TreeOf(w, w.phases[me].parent), s.publishers[me].channel, s.publishers[me].files);
  }
}
