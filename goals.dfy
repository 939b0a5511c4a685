/**
 * The goal list of the GoalSync dashboard as values: goals, their milestones and
 * comments, the demo seed, and the list transforms that the dashboard's handlers
 * apply with `goals.map(...)`.
 */
module Goals {

  datatype Option<T> = None | Some(value: T)

  datatype Comment = Comment(id: int, user: string, text: string, likes: int, time: string)

  datatype Milestone = Milestone(id: int, title: string, completed: bool)

  datatype Goal = Goal(
    id: int,
    title: string,
    description: string,
    progress: int,
    dueDate: string,
    owner: string,
    team: string,
    comments: seq<Comment>,
    milestones: seq<Milestone>,
    color: string)

  /** The contents of the "add goal" form. */
  datatype GoalDraft = GoalDraft(title: string, description: string, dueDate: string, team: string, owner: string)

  const EmptyDraft := GoalDraft("", "", "", "", "")

  /** The palette a new goal's colour is drawn from. */
  const ColorOptions: seq<string> := [
    "from-purple-500 to-indigo-600",
    "from-emerald-500 to-teal-600",
    "from-rose-500 to-pink-600",
    "from-amber-500 to-orange-600",
    "from-blue-500 to-cyan-600"
  ]

  const CommentAuthor := "You"
  const CommentTime := "Just now"

  const DefaultDescription := "No description provided"
  const DefaultDueDate := "Not set"
  const DefaultOwner := "Unassigned"
  const DefaultTeam := "No team"

  // ---------------------------------------------------------------------------
  // Identifiers and the invariant the handlers keep

  predicate CommentsNumbered(cs: seq<Comment>)
  {
    forall j :: 0 <= j < |cs| ==> cs[j].id == j + 1
  }

  predicate MilestonesNumbered(ms: seq<Milestone>)
  {
    forall j :: 0 <= j < |ms| ==> ms[j].id == j + 1
  }

  predicate LikesNonNegative(cs: seq<Comment>)
  {
    forall j :: 0 <= j < |cs| ==> cs[j].likes >= 0
  }

  /** The goal at 1-based position `pos` has id `pos`, numbered children and a progress in 0..100. */
  predicate GoalWellFormed(g: Goal, pos: int)
  {
    && g.id == pos
    && CommentsNumbered(g.comments)
    && MilestonesNumbered(g.milestones)
    && LikesNonNegative(g.comments)
    && 0 <= g.progress <= 100
  }

  /**
   * Ids are 1-based positions: there is no deletion, and every new goal or comment
   * gets the old list length plus one.
   */
  predicate WellFormed(goals: seq<Goal>)
  {
    forall i :: 0 <= i < |goals| ==> GoalWellFormed(goals[i], i + 1)
  }

  /** Positional ids are pairwise distinct: goals in the list, comments and milestones within a goal. */
  lemma WellFormedIdsDistinct(goals: seq<Goal>)
    requires WellFormed(goals)
    ensures forall i, k :: 0 <= i < k < |goals| ==> goals[i].id != goals[k].id
    ensures forall i, j, k :: 0 <= i < |goals| && 0 <= j < k < |goals[i].comments| ==>
              goals[i].comments[j].id != goals[i].comments[k].id
    ensures forall i, j, k :: 0 <= i < |goals| && 0 <= j < k < |goals[i].milestones| ==>
              goals[i].milestones[j].id != goals[i].milestones[k].id
  {
  }

  // ---------------------------------------------------------------------------
  // Progress

  /** The number of completed milestones: `milestones.filter(m => m.completed).length`. */
  function CompletedCount(ms: seq<Milestone>): (c: nat)
    ensures c <= |ms|
    ensures c == 0 <==> forall j :: 0 <= j < |ms| ==> !ms[j].completed
    ensures c == |ms| <==> forall j :: 0 <= j < |ms| ==> ms[j].completed
  {
    if ms == [] then 0
    else
      var rest := CompletedCount(ms[1..]);
      assert forall j :: 1 <= j < |ms| ==> ms[j] == ms[1..][j - 1];
      (if ms[0].completed then 1 else 0) + rest
  }

  /**
   * `Math.round((c / n) * 100)` in exact arithmetic: the integer nearest to 100c/n,
   * halves rounded up.
   */
  function RoundedPercent(c: nat, n: nat): (p: int)
    requires n > 0
    ensures n * (2 * p - 1) <= 200 * c < n * (2 * p + 1)
    ensures c <= n ==> 0 <= p <= 100
  {
    var p := (200 * c + n) / (2 * n);
    PercentBounds(c, n, p);
    p
  }

  lemma PercentBounds(c: nat, n: nat, p: int)
    requires n > 0 && p == (200 * c + n) / (2 * n)
    ensures n * (2 * p - 1) <= 200 * c < n * (2 * p + 1)
    ensures c <= n ==> 0 <= p <= 100
  {
    var m := (200 * c + n) % (2 * n);
    assert 200 * c + n == (2 * n) * p + m && 0 <= m < 2 * n;
    Distribute(n, p);
    if c <= n {
      assert p >= 0;
      MulCancel(n, 2 * p - 1, 200);
    }
  }

  lemma Distribute(n: int, p: int)
    ensures n * (2 * p - 1) == (2 * n) * p - n
    ensures n * (2 * p + 1) == (2 * n) * p + n
  {
  }

  /** Cancelling a positive factor on both sides of an inequality. */
  lemma MulCancel(n: int, a: int, b: int)
    requires n > 0 && n * a <= n * b
    ensures a <= b
  {
  }

  /**
   * The progress value a toggle computes for this milestone list: a percentage,
   * 0 when nothing is completed and 100 when everything is.
   */
  function ProgressOf(ms: seq<Milestone>): (p: int)
    requires |ms| > 0
    ensures 0 <= p <= 100
    ensures (forall j :: 0 <= j < |ms| ==> !ms[j].completed) ==> p == 0
    ensures (forall j :: 0 <= j < |ms| ==> ms[j].completed) ==> p == 100
  {
    var c, n := CompletedCount(ms), |ms|;
    var p := RoundedPercent(c, n);
    if c == 0 then MulCancel(n, 2 * p - 1, 0); p
    else if c == n then MulCancel(n, 200, 2 * p + 1); p
    else p
  }

  /** A goal's stored progress agrees with its milestones (vacuous without milestones). */
  predicate ProgressConsistent(g: Goal)
  {
    |g.milestones| > 0 ==> g.progress == ProgressOf(g.milestones)
  }

  // ---------------------------------------------------------------------------
  // toggleMilestone

  /** `milestones.map(...)`: negate `completed` on every milestone whose id is `mid`. */
  function FlipMilestone(ms: seq<Milestone>, mid: int): (r: seq<Milestone>)
    ensures |r| == |ms|
    ensures forall j :: 0 <= j < |ms| ==>
              && r[j].id == ms[j].id && r[j].title == ms[j].title
              && (r[j].completed != ms[j].completed <==> ms[j].id == mid)
  {
    seq(|ms|, j requires 0 <= j < |ms| =>
      if ms[j].id == mid then ms[j].(completed := !ms[j].completed) else ms[j])
  }

  /** Flipping the same milestone twice restores the list. */
  lemma FlipMilestoneTwice(ms: seq<Milestone>, mid: int)
    ensures FlipMilestone(FlipMilestone(ms, mid), mid) == ms
  {
  }

  /** With no milestone `mid`, nothing flips. */
  lemma FlipAbsentMilestone(ms: seq<Milestone>, mid: int)
    requires forall j :: 0 <= j < |ms| ==> ms[j].id != mid
    ensures FlipMilestone(ms, mid) == ms
  {
  }

  /** Flipping the one milestone with a given id moves the completed count by exactly one. */
  lemma {:induction false} FlipMilestoneCount(ms: seq<Milestone>, k: nat)
    requires k < |ms|
    requires forall j :: 0 <= j < |ms| && j != k ==> ms[j].id != ms[k].id
    ensures CompletedCount(FlipMilestone(ms, ms[k].id)) ==
            CompletedCount(ms) + (if ms[k].completed then -1 else 1)
  {
    var mid := ms[k].id;
    var r := FlipMilestone(ms, mid);
    assert r[1..] == FlipMilestone(ms[1..], mid);
    if k == 0 {
      FlipAbsentMilestone(ms[1..], mid);
    } else {
      FlipMilestoneCount(ms[1..], k - 1);
    }
  }

  /**
   * The one goal a toggle rewrites: only its milestones (flipped where the id is
   * `mid`) and its progress change, and the progress then agrees with the milestones.
   */
  function ToggledGoal(g: Goal, mid: int): (t: Goal)
    requires |g.milestones| > 0
    ensures t == g.(milestones := t.milestones, progress := t.progress)
    ensures t.milestones == FlipMilestone(g.milestones, mid)
    ensures |t.milestones| > 0 && ProgressConsistent(t) && 0 <= t.progress <= 100
  {
    var ms := FlipMilestone(g.milestones, mid);
    g.(milestones := ms, progress := ProgressOf(ms))
  }

  /** Every goal with id `gid` has a milestone, so the progress division is defined. */
  predicate HasMilestones(goals: seq<Goal>, gid: int)
  {
    forall i :: 0 <= i < |goals| && goals[i].id == gid ==> |goals[i].milestones| > 0
  }

  /**
   * The goal list after `toggleMilestone(gid, mid)`. What a toggle changes: only
   * goals with id `gid`, and in them only the milestones (flipped where the id is
   * `mid`) and the progress, which is recomputed from the flipped milestones whether
   * or not `mid` matched, and lies in 0..100.
   */
  function ToggleMilestoneIn(goals: seq<Goal>, gid: int, mid: int): (r: seq<Goal>)
    requires HasMilestones(goals, gid)
    ensures |r| == |goals|
    ensures HasMilestones(r, gid)
    ensures forall i :: 0 <= i < |goals| && goals[i].id != gid ==> r[i] == goals[i]
    ensures forall i :: 0 <= i < |goals| && goals[i].id == gid ==>
              && r[i] == goals[i].(milestones := r[i].milestones, progress := r[i].progress)
              && r[i].milestones == FlipMilestone(goals[i].milestones, mid)
              && r[i].progress == RoundedPercent(CompletedCount(r[i].milestones), |r[i].milestones|)
              && 0 <= r[i].progress <= 100
              && ProgressConsistent(r[i])
  {
    seq(|goals|, i requires 0 <= i < |goals| =>
      if goals[i].id == gid then ToggledGoal(goals[i], mid) else goals[i])
  }

  /**
   * Toggling the same milestone twice restores every milestone list; a goal whose
   * progress already agreed with its milestones comes back unchanged.
   */
  lemma ToggleMilestoneTwice(goals: seq<Goal>, gid: int, mid: int)
    requires HasMilestones(goals, gid)
    ensures HasMilestones(ToggleMilestoneIn(goals, gid, mid), gid)
    ensures var r := ToggleMilestoneIn(ToggleMilestoneIn(goals, gid, mid), gid, mid);
      && |r| == |goals|
      && (forall i :: 0 <= i < |goals| ==> r[i].milestones == goals[i].milestones)
      && (forall i :: 0 <= i < |goals| && ProgressConsistent(goals[i]) ==> r[i] == goals[i])
  {
  }

  /** A toggle keeps ids positional and progress within 0..100. */
  lemma ToggleMilestoneKeepsWellFormed(goals: seq<Goal>, gid: int, mid: int)
    requires WellFormed(goals) && HasMilestones(goals, gid)
    ensures WellFormed(ToggleMilestoneIn(goals, gid, mid))
  {
  }

  // ---------------------------------------------------------------------------
  // addComment

  /**
   * The goal list after `addComment(gid)` with the (non-blank) draft `text`. Goals
   * with id `gid` gain exactly one comment at the end of their thread, earlier
   * comments kept in order; the new one has id = old length + 1, author "You", the
   * draft text as typed, no likes and the time "Just now". Nothing else changes.
   */
  function AppendCommentTo(goals: seq<Goal>, gid: int, text: string): (r: seq<Goal>)
    ensures |r| == |goals|
    ensures forall i :: 0 <= i < |goals| && goals[i].id != gid ==> r[i] == goals[i]
    ensures forall i :: 0 <= i < |goals| && goals[i].id == gid ==>
              && r[i] == goals[i].(comments := r[i].comments)
              && |r[i].comments| == |goals[i].comments| + 1
              && r[i].comments[..|goals[i].comments|] == goals[i].comments
              && r[i].comments[|goals[i].comments|] ==
                 Comment(|goals[i].comments| + 1, "You", text, 0, "Just now")
  {
    seq(|goals|, i requires 0 <= i < |goals| =>
      var cs := goals[i].comments;
      if goals[i].id == gid
      then goals[i].(comments := cs + [Comment(|cs| + 1, CommentAuthor, text, 0, CommentTime)])
      else goals[i])
  }

  /** Adding a comment keeps ids positional. */
  lemma AppendCommentKeepsWellFormed(goals: seq<Goal>, gid: int, text: string)
    requires WellFormed(goals)
    ensures WellFormed(AppendCommentTo(goals, gid, text))
  {
  }

  // ---------------------------------------------------------------------------
  // likeComment

  /** `comments.map(...)`: one more like on every comment whose id is `cid`. */
  function LikeIn(cs: seq<Comment>, cid: int): (r: seq<Comment>)
    ensures |r| == |cs|
    ensures forall j :: 0 <= j < |cs| ==>
              r[j] == cs[j].(likes := r[j].likes)
              && r[j].likes == cs[j].likes + (if cs[j].id == cid then 1 else 0)
  {
    seq(|cs|, j requires 0 <= j < |cs| =>
      if cs[j].id == cid then cs[j].(likes := cs[j].likes + 1) else cs[j])
  }

  /**
   * The goal list after `likeComment(gid, cid)`: one more like on every comment
   * `cid` of a goal `gid`; no other comment, field or goal changes.
   */
  function LikeCommentIn(goals: seq<Goal>, gid: int, cid: int): (r: seq<Goal>)
    ensures |r| == |goals|
    ensures forall i :: 0 <= i < |goals| ==>
              && r[i] == goals[i].(comments := r[i].comments)
              && |r[i].comments| == |goals[i].comments|
    ensures forall i, j :: 0 <= i < |goals| && 0 <= j < |goals[i].comments| ==>
              && r[i].comments[j] == goals[i].comments[j].(likes := r[i].comments[j].likes)
              && r[i].comments[j].likes == goals[i].comments[j].likes +
                   (if goals[i].id == gid && goals[i].comments[j].id == cid then 1 else 0)
  {
    seq(|goals|, i requires 0 <= i < |goals| =>
      if goals[i].id == gid then goals[i].(comments := LikeIn(goals[i].comments, cid)) else goals[i])
  }

  /** `likeComment(gid, cid)` applied `n` times in a row. */
  function LikeRepeated(goals: seq<Goal>, gid: int, cid: int, n: nat): seq<Goal>
  {
    if n == 0 then goals else LikeCommentIn(LikeRepeated(goals, gid, cid, n - 1), gid, cid)
  }

  /**
   * Liking `n` times adds exactly `n` to every matching comment and changes nothing
   * else: no other comment, no other field, no other goal.
   */
  lemma {:induction false} LikeRepeatedAdds(goals: seq<Goal>, gid: int, cid: int, n: nat)
    ensures var r := LikeRepeated(goals, gid, cid, n);
      && |r| == |goals|
      && (forall i :: 0 <= i < |goals| ==>
            && r[i] == goals[i].(comments := r[i].comments)
            && |r[i].comments| == |goals[i].comments|)
      && (forall i, j :: 0 <= i < |goals| && 0 <= j < |goals[i].comments| ==>
            && r[i].comments[j] == goals[i].comments[j].(likes := r[i].comments[j].likes)
            && r[i].comments[j].likes == goals[i].comments[j].likes +
                 (if goals[i].id == gid && goals[i].comments[j].id == cid then n else 0))
  {
    if n > 0 {
      LikeRepeatedAdds(goals, gid, cid, n - 1);
    }
  }

  /** Liking keeps ids positional and like counts non-negative. */
  lemma LikeCommentKeepsWellFormed(goals: seq<Goal>, gid: int, cid: int)
    requires WellFormed(goals)
    ensures WellFormed(LikeCommentIn(goals, gid, cid))
  {
  }

  // ---------------------------------------------------------------------------
  // handleAddGoal

  /** `s || fallback` on strings: only the empty string is falsy. */
  function OrDefault(s: string, fallback: string): (r: string)
    ensures s != "" ==> r == s
    ensures s == "" ==> r == fallback
  {
    if s == "" then fallback else s
  }

  /**
   * The goal `handleAddGoal` builds from the draft: the given id and colour, the
   * title as typed, progress 0, no comments and no milestones; each optional field
   * keeps what was typed unless it is the empty string, which gets its default.
   */
  function NewGoal(d: GoalDraft, id: int, color: string): (g: Goal)
    ensures g.id == id && g.title == d.title && g.color == color
    ensures g.progress == 0 && g.comments == [] && g.milestones == []
    ensures g.description != "" && g.dueDate != "" && g.owner != "" && g.team != ""
    ensures d.description != "" ==> g.description == d.description
    ensures d.dueDate != "" ==> g.dueDate == d.dueDate
    ensures d.owner != "" ==> g.owner == d.owner
    ensures d.team != "" ==> g.team == d.team
    ensures d.description == "" ==> g.description == "No description provided"
    ensures d.dueDate == "" ==> g.dueDate == "Not set"
    ensures d.owner == "" ==> g.owner == "Unassigned"
    ensures d.team == "" ==> g.team == "No team"
  {
    Goal(
      id,
      d.title,
      OrDefault(d.description, DefaultDescription),
      0,
      OrDefault(d.dueDate, DefaultDueDate),
      OrDefault(d.owner, DefaultOwner),
      OrDefault(d.team, DefaultTeam),
      [],
      [],
      color)
  }

  /** Appending the new goal with id length + 1 keeps ids positional. */
  lemma AddGoalKeepsWellFormed(goals: seq<Goal>, d: GoalDraft, color: string)
    requires WellFormed(goals)
    ensures WellFormed(goals + [NewGoal(d, |goals| + 1, color)])
  {
  }
}
