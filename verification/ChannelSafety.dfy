/**
 What holds of the channel branch in every run of any number of concurrent
 publishers.
 Source: scripts/release.js
 */
module ChannelSafety {
  import opened Wrappers
  import opened ChannelAdvance
  import opened ChannelPublication
  import opened Runs

  /** Some run of some number of publishers, on a branch with any content, leads here. */
  ghost predicate Reachable(s: Setting, w: World): (r: bool)
    ensures r ==> Inv(s, w)
  {
    var r := exists start :: Initial(s, start) && Leads(Steps(s), start, w);
    assert r ==> Inv(s, w) by {
      if r {
        var start :| Initial(s, start) && Leads(Steps(s), start, w);
        RunKeepsInvariant(s, start, w);
      }
    }
    r
  }

  /** Who moved the branch from its `i`-th head to the next. */
  function Author(s: Setting, w: World, i: nat): Publisher
    requires Inv(s, w) && i < |w.authors|
  {
    assert IsMove(s, w, w.authors[i], w.heads[i], w.heads[i + 1]);
    s.publishers[w.authors[i]]
  }

  /** The branch content at its `i`-th head. */
  function TreeAt(s: Setting, w: World, i: nat): Tree
    requires WellFormed(s, w) && i < |w.heads|
  {
    TreeOf(w, w.heads[i])
  }

  predicate RollbackDisabled(s: Setting, channel: string) {
    forall p | 0 <= p < |s.publishers| :: s.publishers[p].channel == channel ==> !s.publishers[p].allowRollback
  }

  /** Same four files, or four files of a strictly higher version. */
  predicate SameOrHigher(site: Site, before: Files, after: Files) {
    before == after || Higher(site, before, after)
  }

  /**
   Every commit on the branch replaces the four files of one channel
   together, by its author's files, and leaves every other path alone; a
   channel that existed moves to a strictly higher version, or to a strictly
   lower one if its author allowed a rollback.
   */
  lemma EveryCommitIsWhole(s: Setting, w: World, i: nat)
    requires Reachable(s, w) && i < |w.authors|
    ensures var p, before, after := Author(s, w, i), TreeAt(s, w, i), TreeAt(s, w, i + 1);
      && FilesAt(after, p.channel) == Some(p.files)
      && (forall path | path !in {ChannelFile(p.channel, SharedManifest), ChannelFile(p.channel, SharedSignature),
                                  ChannelFile(p.channel, UpdaterManifest), ChannelFile(p.channel, UpdaterSignature)} ::
            (path in after <==> path in before) && (path in before ==> after[path] == before[path]))
      && (|| Absent(before, p.channel)
          || (FilesAt(before, p.channel).Some?
              && (|| Higher(s.site, FilesAt(before, p.channel).value, p.files)
                  || (p.allowRollback && Higher(s.site, p.files, FilesAt(before, p.channel).value)))))
  {
    assert IsMove(s, w, w.authors[i], w.heads[i], w.heads[i + 1]);
    AdvanceIff(s.site, Author(s, w, i), TreeAt(s, w, i));
    WithFilesIsLocal(TreeAt(s, w, i), Author(s, w, i).channel, Author(s, w, i).files);
  }

  lemma MoveIsMonotone(s: Setting, w: World, channel: string, i: nat)
    requires Inv(s, w) && i + 1 < |w.heads| && RollbackDisabled(s, channel)
    requires FilesAt(TreeAt(s, w, i), channel).Some?
    ensures FilesAt(TreeAt(s, w, i + 1), channel).Some?
    ensures SameOrHigher(s.site, FilesAt(TreeAt(s, w, i), channel).value, FilesAt(TreeAt(s, w, i + 1), channel).value)
  {
    var p := Author(s, w, i);
    assert IsMove(s, w, w.authors[i], w.heads[i], w.heads[i + 1]);
    AdvanceIff(s.site, p, TreeAt(s, w, i));
    WithFilesIsLocal(TreeAt(s, w, i), p.channel, p.files);
  }

  lemma {:induction false} HeadsAreMonotone(s: Setting, w: World, channel: string, i: nat, j: nat)
    requires Inv(s, w) && i <= j < |w.heads| && RollbackDisabled(s, channel)
    requires FilesAt(TreeAt(s, w, i), channel).Some?
    ensures FilesAt(TreeAt(s, w, j), channel).Some?
    ensures SameOrHigher(s.site, FilesAt(TreeAt(s, w, i), channel).value, FilesAt(TreeAt(s, w, j), channel).value)
    decreases j
  {
    if i < j {
      HeadsAreMonotone(s, w, channel, i, j - 1);
      MoveIsMonotone(s, w, channel, j - 1);
      var a, b, c := FilesAt(TreeAt(s, w, i), channel).value, FilesAt(TreeAt(s, w, j - 1), channel).value,
        FilesAt(TreeAt(s, w, j), channel).value;
      if a != b && b != c { HigherIsTransitive(s.site, a, b, c); }
    }
  }

  /**
   Monotone channel: with rollback disabled for its publishers, from its first
   publication on a channel is never incomplete, and any two heads of the
   branch show the same four files or, later, a strictly higher version.
   */
  lemma ChannelIsMonotone(s: Setting, w: World, channel: string, i: nat, j: nat)
    requires Reachable(s, w) && RollbackDisabled(s, channel) && i <= j < |w.heads|
    requires FilesAt(TreeAt(s, w, i), channel).Some?
    ensures FilesAt(TreeAt(s, w, j), channel).Some?
    ensures SameOrHigher(s.site, FilesAt(TreeAt(s, w, i), channel).value, FilesAt(TreeAt(s, w, j), channel).value)
  {
    HeadsAreMonotone(s, w, channel, i, j);
  }

  /**
   A publisher whose commit reached the branch, with or without learning of
   it, never advances the channel again, whatever others published since.
   */
  lemma RetryChangesNothing(s: Setting, w: World, i: nat, j: nat)
    requires Reachable(s, w) && i < |w.authors| && i < j < |w.heads|
    requires RollbackDisabled(s, Author(s, w, i).channel)
    ensures Decide(s.site, Author(s, w, i), TreeAt(s, w, j)) != Ok(Advance)
  {
    EveryCommitIsWhole(s, w, i);
    HeadsAreMonotone(s, w, Author(s, w, i).channel, i + 1, j);
    RetryAdvancesIff(s.site, Author(s, w, i), TreeAt(s, w, j));
  }

  /** Such a publisher moves the branch at most once in a whole run. */
  lemma AtMostOneMoveEach(s: Setting, w: World, i: nat, j: nat)
    requires Reachable(s, w) && i < j < |w.authors|
    requires RollbackDisabled(s, Author(s, w, i).channel)
    ensures w.authors[i] != w.authors[j]
  {
    RetryChangesNothing(s, w, i, j);
    assert IsMove(s, w, w.authors[j], w.heads[j], w.heads[j + 1]);
  }

  /** A publisher that ends well had exactly its files on the branch at some head. */
  lemma PublishedMeansLive(s: Setting, w: World, who: nat)
    requires Reachable(s, w) && who < |s.publishers| && w.phases[who].Published?
    ensures exists i ::
        0 <= i < |w.heads| && FilesAt(TreeAt(s, w, i), s.publishers[who].channel) == Some(s.publishers[who].files)
  {
    assert Remembers(s, w, who);
    var i :| 0 <= i < |w.heads| && IsLive(s, w, who, i);
    assert FilesAt(TreeAt(s, w, i), s.publishers[who].channel) == Some(s.publishers[who].files);
  }

  /**
   The exact condition, rollback switch included: on a branch that holds the
   publisher's own files or later ones, it advances if and only if rollback is
   allowed, the files are later ones and both sets are consistent.
   */
  lemma RetryAdvancesIff(site: Site, p: Publisher, tree: Tree)
    requires FilesAt(tree, p.channel).Some?
    requires SameOrHigher(site, p.files, FilesAt(tree, p.channel).value)
    ensures Decide(site, p, tree) == Ok(Advance) <==>
      && p.allowRollback
      && FilesAt(tree, p.channel).value != p.files
      && Consistent(site, p.channel, FilesAt(tree, p.channel).value)
      && Releases(site, p)
  {
    var current := FilesAt(tree, p.channel).value;
    AdvanceIff(site, p, tree);
    if Higher(site, p.files, current) { HigherIsStrict(site, p.files, current); }
    if Higher(site, current, p.files) { HigherIsStrict(site, current, p.files); }
  }
}
