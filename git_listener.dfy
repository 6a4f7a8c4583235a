/** `GitBranchListener`: reports the current branch once at start and then only when
    it changes. The repositories are the ones `GitRepositoryManager` lists at the
    moment of the call; the callback is recorded as the list of branch names it
    was called with. */
module GitListener {
  import opened Common

  /** A repository, by the name of its current branch (none when detached). */
  datatype GitRepository = GitRepository(currentBranch: Option<string>)

  /** The branch `getCurrentBranch` reads from a list of repositories: none when
      there is no repository, otherwise the first (primary) one's branch. */
  function CurrentBranch(repositories: seq<GitRepository>): Option<string> {
    if |repositories| == 0 then None else repositories[0].currentBranch
  }

  /** No entry repeats the one before it. */
  predicate NoRepeats(s: seq<Option<string>>) {
    forall i :: 0 < i < |s| ==> s[i] != s[i - 1]
  }

  /** The callbacks a series of observed branches produces after `last`: each branch
      that differs from the one seen before it. */
  function Changes(last: Option<string>, observed: seq<Option<string>>): seq<Option<string>>
    decreases |observed|
  {
    if |observed| == 0 then []
    else if observed[0] != last then [observed[0]] + Changes(observed[0], observed[1..])
    else Changes(last, observed[1..])
  }

  /** The branch seen last after `last` and then `observed`. */
  function LastSeen(last: Option<string>, observed: seq<Option<string>>): Option<string> {
    if |observed| == 0 then last else observed[|observed| - 1]
  }

  /** The reported changes never repeat, not even the branch seen before them, and
      the last one reported is the last branch seen. */
  lemma {:induction false} ChangesNeverRepeat(last: Option<string>, observed: seq<Option<string>>)
    ensures NoRepeats([last] + Changes(last, observed))
    ensures |Changes(last, observed)| > 0 ==> Changes(last, observed)[|Changes(last, observed)| - 1] == LastSeen(last, observed)
    ensures |Changes(last, observed)| == 0 ==> LastSeen(last, observed) == last
    decreases |observed|
  {
    if |observed| > 0 {
      var rest := observed[1..];
      ChangesNeverRepeat(observed[0], rest);
      ChangesNeverRepeat(last, rest);
      assert LastSeen(observed[0], rest) == LastSeen(last, observed);
      if observed[0] != last {
        assert [last] + Changes(last, observed) == [last] + ([observed[0]] + Changes(observed[0], rest));
        assert ([observed[0]] + Changes(observed[0], rest))[0] == observed[0];
      }
    }
  }

  /** Watching in two stretches reports what watching in one does: the second
      stretch starts from the branch the first one saw last. */
  lemma {:induction false} ChangesAppend(last: Option<string>, a: seq<Option<string>>, b: seq<Option<string>>)
    ensures Changes(last, a + b) == Changes(last, a) + Changes(LastSeen(last, a), b)
    decreases |a|
  {
    if |a| > 0 {
      assert (a + b)[1..] == a[1..] + b;
      assert (a + b)[0] == a[0];
      var next := if a[0] != last then a[0] else last;
      ChangesAppend(next, a[1..], b);
      assert a[0] != last ==> LastSeen(a[0], a[1..]) == LastSeen(last, a);
      assert a[0] == last ==> LastSeen(last, a[1..]) == LastSeen(last, a);
    } else {
      assert a + b == b;
    }
  }

  /** However often an unchanged branch is observed, nothing is reported. */
  lemma {:induction false} UnchangedBranchIsSilent(last: Option<string>, observed: seq<Option<string>>)
    requires forall i :: 0 <= i < |observed| ==> observed[i] == last
    ensures Changes(last, observed) == []
    decreases |observed|
  {
    if |observed| > 0 {
      UnchangedBranchIsSilent(last, observed[1..]);
    }
  }

  class GitBranchListener {
    var lastBranch: Option<string>
    /** The arguments of every `onBranchChanged` call so far, in order. */
    var notifications: seq<Option<string>>

    /** Every callback reported a change: none repeats the one before it, the newest
        one is `lastBranch`, and before the first one `lastBranch` is null. */
    ghost predicate Valid()
      reads this
    {
      && NoRepeats(notifications)
      && (|notifications| == 0 ==> lastBranch == None)
      && (|notifications| > 0 ==> notifications[|notifications| - 1] == lastBranch)
    }

    constructor ()
      ensures Valid() && lastBranch == None && notifications == []
    {
      lastBranch := None;
      notifications := [];
    }

    /** `getCurrentBranch`. */
    method GetCurrentBranch(repositories: seq<GitRepository>) returns (branch: Option<string>)
      ensures |repositories| == 0 ==> branch == None
      ensures |repositories| > 0 ==> branch == repositories[0].currentBranch
    {
      if |repositories| == 0 {
        return None;
      }
      var repo := repositories[0];
      branch := repo.currentBranch;
    }

    /** `start`: record the current branch and report it, exactly once. */
    method Start(repositories: seq<GitRepository>)
      requires Valid()
      modifies this
      ensures lastBranch == CurrentBranch(repositories)
      ensures notifications == old(notifications) + [CurrentBranch(repositories)]
      ensures old(notifications) == [] ==> Valid()
    {
      var currentBranch := GetCurrentBranch(repositories);
      lastBranch := currentBranch;
      notifications := notifications + [currentBranch];
    }

    /** `repositoryChanged`: report the current branch only when it differs from the
        last one; either way it becomes the last one. */
    method RepositoryChanged(repositories: seq<GitRepository>)
      requires Valid()
      modifies this
      ensures Valid()
      ensures lastBranch == CurrentBranch(repositories)
      ensures notifications == old(notifications) + Changes(old(lastBranch), [CurrentBranch(repositories)])
    {
      var currentBranch := GetCurrentBranch(repositories);
      if currentBranch != lastBranch {
        lastBranch := currentBranch;
        notifications := notifications + [currentBranch];
      }
    }
  }

  /** Start on "main", then events on "main", "feature", "feature", "main": the
      callback sees "main", "feature", "main". */
  method SwitchScenario()
  {
    var main, feature := [GitRepository(Some("main"))], [GitRepository(Some("feature"))];
    var listener := new GitBranchListener();
    listener.Start(main);
    listener.RepositoryChanged(main);
    listener.RepositoryChanged(feature);
    listener.RepositoryChanged(feature);
    listener.RepositoryChanged(main);
    assert listener.notifications == [Some("main"), Some("feature"), Some("main")];
    listener.RepositoryChanged([]);
    assert listener.lastBranch == None;
  }
}
