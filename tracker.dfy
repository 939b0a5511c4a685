/**
 * The dashboard component's state and its event handlers. Each handler is one
 * atomic step on the current state: it replaces the goal list by the transformed
 * list and updates the form and panel slots it names.
 */
module Tracker {
  import opened Text
  import opened Goals
  import opened Seed

  /** The expanded-goal slot after clicking the expand button of goal `gid`. */
  function NextExpanded(current: Option<int>, gid: int): (r: Option<int>)
    ensures r == Some(gid) <==> current != Some(gid)
    ensures r == None <==> current == Some(gid)
  {
    if current == Some(gid) then None else Some(gid)
  }

  class GoalTracker {
    var goals: seq<Goal>
    /** The text of the comment composer. */
    var newComment: string
    /** The one goal whose comment composer is open, if any. */
    var activeCommentGoalId: Option<int>
    /** The one goal whose card is expanded, if any. */
    var expandedGoalId: Option<int>
    var showAddGoal: bool
    /** The contents of the "add goal" form. */
    var newGoal: GoalDraft

    /** Ids are positions, progress is a percentage and likes are non-negative. */
    ghost predicate Valid()
      reads this`goals
    {
      WellFormed(goals)
    }

    /** The state on page load: the seed goals, empty drafts, nothing open. */
    constructor ()
      ensures Valid()
      ensures goals == InitialGoals
      ensures newComment == "" && newGoal == EmptyDraft
      ensures activeCommentGoalId == None && expandedGoalId == None && !showAddGoal
    {
      goals := InitialGoals;
      newComment := "";
      activeCommentGoalId := None;
      expandedGoalId := None;
      showAddGoal := false;
      newGoal := EmptyDraft;
      InitialGoalsWellFormed();
    }

    /**
     * `toggleMilestone`: flips milestone `milestoneId` of goal `goalId` and recomputes
     * that goal's progress. The dashboard only offers it on a rendered milestone,
     * so the goal has at least one.
     */
    method ToggleMilestone(goalId: int, milestoneId: int)
      requires Valid()
      requires HasMilestones(goals, goalId)
      modifies this`goals
      ensures Valid()
      ensures goals == ToggleMilestoneIn(old(goals), goalId, milestoneId)
    {
      ToggleMilestoneKeepsWellFormed(goals, goalId, milestoneId);
      goals := ToggleMilestoneIn(goals, goalId, milestoneId);
    }

    /**
     * `addComment`: a blank draft changes nothing. Otherwise the draft, as typed, is
     * appended to the thread of goal `goalId`, the draft is cleared and the composer
     * closed, whether or not a goal matched.
     */
    method AddComment(goalId: int)
      requires Valid()
      modifies this`goals, this`newComment, this`activeCommentGoalId
      ensures Valid()
      ensures IsBlank(old(newComment)) ==>
                && goals == old(goals)
                && newComment == old(newComment)
                && activeCommentGoalId == old(activeCommentGoalId)
      ensures !IsBlank(old(newComment)) ==>
                && goals == AppendCommentTo(old(goals), goalId, old(newComment))
                && newComment == ""
                && activeCommentGoalId == None
    {
      if TrimsToEmpty(newComment) {
        return;
      }
      AppendCommentKeepsWellFormed(goals, goalId, newComment);
      goals := AppendCommentTo(goals, goalId, newComment);
      newComment := "";
      activeCommentGoalId := None;
    }

    /** `likeComment`: one more like on comment `commentId` of goal `goalId`. */
    method LikeComment(goalId: int, commentId: int)
      requires Valid()
      modifies this`goals
      ensures Valid()
      ensures goals == LikeCommentIn(old(goals), goalId, commentId)
    {
      LikeCommentKeepsWellFormed(goals, goalId, commentId);
      goals := LikeCommentIn(goals, goalId, commentId);
    }

    /**
     * `handleAddGoal`: a draft whose title is blank changes nothing. Otherwise the
     * new goal, with id = number of goals + 1 and the palette entry `colorIndex`
     * (the random pick), is appended, the form is reset and the dialog closed.
     */
    method HandleAddGoal(colorIndex: nat)
      requires Valid()
      requires colorIndex < |ColorOptions|
      modifies this`goals, this`newGoal, this`showAddGoal
      ensures Valid()
      ensures IsBlank(old(newGoal).title) ==>
                goals == old(goals) && newGoal == old(newGoal) && showAddGoal == old(showAddGoal)
      ensures !IsBlank(old(newGoal).title) ==>
                && goals == old(goals) + [NewGoal(old(newGoal), |old(goals)| + 1, ColorOptions[colorIndex])]
                && newGoal == EmptyDraft
                && !showAddGoal
    {
      if TrimsToEmpty(newGoal.title) {
        return;
      }
      var g := NewGoal(newGoal, |goals| + 1, ColorOptions[colorIndex]);
      AddGoalKeepsWellFormed(goals, newGoal, ColorOptions[colorIndex]);
      goals := goals + [g];
      newGoal := EmptyDraft;
      showAddGoal := false;
    }

    /** `toggleGoalExpansion`: expand goal `goalId`, or collapse it if it is the expanded one. */
    method ToggleGoalExpansion(goalId: int)
      modifies this`expandedGoalId
      ensures expandedGoalId == NextExpanded(old(expandedGoalId), goalId)
    {
      expandedGoalId := NextExpanded(expandedGoalId, goalId);
    }

    /** The "Add Comment" button of goal `goalId`: its composer becomes the open one. */
    method OpenCommentComposer(goalId: int)
      modifies this`activeCommentGoalId
      ensures activeCommentGoalId == Some(goalId)
    {
      activeCommentGoalId := Some(goalId);
    }

    /** The composer's "Cancel" button: no composer is open; the draft is kept. */
    method CancelComment()
      modifies this`activeCommentGoalId
      ensures activeCommentGoalId == None
    {
      activeCommentGoalId := None;
    }

    /** Typing in the comment composer. */
    method SetCommentDraft(text: string)
      modifies this`newComment
      ensures newComment == text
    {
      newComment := text;
    }

    /** The "New Goal" button opens the dialog. */
    method OpenAddGoal()
      modifies this`showAddGoal
      ensures showAddGoal
    {
      showAddGoal := true;
    }

    /** The dialog's close button; the draft is kept. */
    method CloseAddGoal()
      modifies this`showAddGoal
      ensures !showAddGoal
    {
      showAddGoal := false;
    }

    /** Typing in any field of the "add goal" form. */
    method SetGoalDraft(draft: GoalDraft)
      modifies this`newGoal
      ensures newGoal == draft
    {
      newGoal := draft;
    }
  }
}
