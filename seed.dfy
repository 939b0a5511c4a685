/** The demo data the dashboard starts from, and what the handlers do to it. */
module Seed {
  import opened Goals

  /** "Launch New Website": 5 milestones, 3 of them done, seeded with progress 65. */
  const LaunchWebsite := Goal(
    1,
    "Launch New Website",
    "Complete redesign and launch of company website",
    65,
    "2025-06-15",
    "Alex Chen",
    "Marketing",
    [
      Comment(1, "Taylor Kim", "Homepage looks great! Can we add more product images?", 3, "2 days ago"),
      Comment(2, "Jordan Lee", "SEO optimization complete - all meta tags are in place.", 1, "1 day ago")
    ],
    [
      Milestone(1, "Wireframes Complete", true),
      Milestone(2, "Design Approval", true),
      Milestone(3, "Content Upload", true),
      Milestone(4, "Testing Phase", false),
      Milestone(5, "Launch", false)
    ],
    "from-purple-500 to-indigo-600")

  /** "Q2 Sales Targets": 4 milestones, 2 of them done, seeded with progress 42. */
  const SalesTargets := Goal(
    2,
    "Q2 Sales Targets",
    "Reach $1.2M in new business for Q2",
    42,
    "2025-06-30",
    "Sam Rodriguez",
    "Sales",
    [
      Comment(1, "Morgan Smith", "West region is outperforming projections by 12%", 5, "3 days ago")
    ],
    [
      Milestone(1, "$300K", true),
      Milestone(2, "$600K", true),
      Milestone(3, "$900K", false),
      Milestone(4, "$1.2M", false)
    ],
    "from-emerald-500 to-teal-600")

  /** "Mobile App Development": 6 milestones, 2 of them done, seeded with progress 20. */
  const MobileApp := Goal(
    3,
    "Mobile App Development",
    "Build and launch v1 of customer mobile app",
    20,
    "2025-08-30",
    "Jesse Park",
    "Product",
    [
      Comment(1, "Robin Cho", "API integration is taking longer than expected. We might need another sprint.", 0, "1 day ago")
    ],
    [
      Milestone(1, "Requirements Gathered", true),
      Milestone(2, "Design Phase", true),
      Milestone(3, "Frontend Development", false),
      Milestone(4, "Backend Integration", false),
      Milestone(5, "Testing", false),
      Milestone(6, "App Store Submission", false)
    ],
    "from-rose-500 to-pink-600")

  /** The goals the dashboard starts with. */
  const InitialGoals: seq<Goal> := [LaunchWebsite, SalesTargets, MobileApp]

  /** The seed has positional ids, in-range progress, and a milestone on every goal. */
  lemma InitialGoalsWellFormed()
    ensures WellFormed(InitialGoals)
    ensures forall gid :: HasMilestones(InitialGoals, gid)
  {
    forall i | 0 <= i < |InitialGoals| ensures GoalWellFormed(InitialGoals[i], i + 1) {
    }
  }

  /** How many milestones each seed goal has completed: 3 of 5, 2 of 4 and 2 of 6. */
  lemma SeedCompletedCounts()
    ensures CompletedCount(LaunchWebsite.milestones) == 3
    ensures CompletedCount(SalesTargets.milestones) == 2
    ensures CompletedCount(MobileApp.milestones) == 2
  {
    var ms0, ms1, ms2 := LaunchWebsite.milestones, SalesTargets.milestones, MobileApp.milestones;
    assert ms0[1..][1..][1..][1..] == [ms0[4]];
    assert ms1[1..][1..][1..] == [ms1[3]];
    assert ms2[1..][1..][1..][1..][1..] == [ms2[5]];
  }

  /** The rounded percentages the seed scenarios need. */
  lemma SeedPercentages()
    ensures RoundedPercent(3, 5) == 60 && RoundedPercent(4, 5) == 80
    ensures RoundedPercent(2, 4) == 50 && RoundedPercent(2, 6) == 33
  {
  }

  /**
   * The seeded progress values 65, 42 and 20 are not the milestone ratios, which
   * round to 60, 50 and 33.
   */
  lemma SeedProgressDisagreesWithMilestones()
    ensures LaunchWebsite.progress == 65 && ProgressOf(LaunchWebsite.milestones) == 60
    ensures SalesTargets.progress == 42 && ProgressOf(SalesTargets.milestones) == 50
    ensures MobileApp.progress == 20 && ProgressOf(MobileApp.milestones) == 33
  {
    SeedCompletedCounts();
    SeedPercentages();
  }

  /** Toggling "Testing Phase" of "Launch New Website" completes 4 of 5 milestones: 80. */
  lemma WebsiteToggleProgress()
    ensures ProgressOf(FlipMilestone(LaunchWebsite.milestones, 4)) == 80
  {
    var ms := LaunchWebsite.milestones;
    assert MilestonesNumbered(ms) && !ms[3].completed;
    SeedCompletedCounts();
    CompleteFourthOfFive(ms);
  }

  /** Completing the open 4th of 5 milestones when 3 are done gives 80. */
  lemma CompleteFourthOfFive(ms: seq<Milestone>)
    requires |ms| == 5 && MilestonesNumbered(ms) && !ms[3].completed && CompletedCount(ms) == 3
    ensures ProgressOf(FlipMilestone(ms, 4)) == 80
  {
    FlipMilestoneCount(ms, 3);
    SeedPercentages();
  }

  /** On the seed, `toggleMilestone(1, 4)` takes "Launch New Website" to 80. */
  lemma SeedToggleScenario()
    ensures HasMilestones(InitialGoals, 1)
    ensures ToggleMilestoneIn(InitialGoals, 1, 4)[0].progress == 80
  {
    assert HasMilestones(InitialGoals, 1);
    assert ToggleMilestoneIn(InitialGoals, 1, 4)[0] == ToggledGoal(LaunchWebsite, 4);
    WebsiteToggleProgress();
  }

  /**
   * Toggling a milestone id that "Launch New Website" does not have leaves its
   * milestones alone but still rewrites its progress from 65 to 60.
   */
  lemma SeedToggleUnknownMilestone()
    ensures HasMilestones(InitialGoals, 1)
    ensures ToggleMilestoneIn(InitialGoals, 1, 99)[0].milestones == LaunchWebsite.milestones
    ensures LaunchWebsite.progress == 65 && ToggleMilestoneIn(InitialGoals, 1, 99)[0].progress == 60
  {
    assert HasMilestones(InitialGoals, 1);
    FlipAbsentMilestone(LaunchWebsite.milestones, 99);
    assert ToggleMilestoneIn(InitialGoals, 1, 99)[0] == ToggledGoal(LaunchWebsite, 99);
    SeedProgressDisagreesWithMilestones();
  }

  /** Liking the seed comment with 3 likes once gives 4; liking it n times gives 3 + n. */
  lemma SeedLikeScenario(n: nat)
    ensures LikeCommentIn(InitialGoals, 1, 1)[0].comments[0].likes == 4
    ensures var r := LikeRepeated(InitialGoals, 1, 1, n);
      |r| > 0 && |r[0].comments| > 0 && r[0].comments[0].likes == 3 + n
  {
    LikeRepeatedAdds(InitialGoals, 1, 1, n);
  }
}
