/**
 * The collapsible team list of `team-members.tsx`: which groups start open,
 * `toggleGroup`, and the avatar overflow of each group card.
 */
module Team {

  datatype TeamMember = TeamMember(id: string, name: string, avatar: string, joinedYear: string, initials: string)

  /** A group; an omitted `defaultOpen` is `false`. */
  datatype TeamGroup = TeamGroup(id: string, title: string, members: seq<TeamMember>, defaultOpen: bool)

  /** How many avatars a collapsed card stacks before the "+N" badge. */
  const MaxVisibleAvatars: nat := 4

  /** `new Set(teams.filter((team) => team.defaultOpen).map((team) => team.id))`. */
  function InitialOpenGroups(teams: seq<TeamGroup>): (open: set<string>)
  {
    if teams == [] then {}
    else (if teams[0].defaultOpen then {teams[0].id} else {}) + InitialOpenGroups(teams[1..])
  }

  /** The initial open set is exactly the ids of the teams marked `defaultOpen`. */
  lemma {:induction false} InitialOpenGroupsIff(teams: seq<TeamGroup>, id: string)
    ensures id in InitialOpenGroups(teams) <==> exists t :: t in teams && t.defaultOpen && t.id == id
  {
    if teams != [] {
      InitialOpenGroupsIff(teams[1..], id);
      assert teams == [teams[0]] + teams[1..];
      if id in InitialOpenGroups(teams[1..]) {
        var t :| t in teams[1..] && t.defaultOpen && t.id == id;
        assert t in teams;
      }
    }
  }

  /** The set `toggleGroup(groupId)` stores. */
  function Toggled(open: set<string>, groupId: string): (r: set<string>)
    ensures groupId in r <==> groupId !in open
    ensures forall id :: id != groupId ==> (id in r <==> id in open)
  {
    if groupId in open then open - {groupId} else open + {groupId}
  }

  /** Toggling a group twice restores the open set. */
  lemma ToggleTwice(open: set<string>, groupId: string)
    ensures Toggled(Toggled(open, groupId), groupId) == open
  {
  }

  /** `isOpen={openGroups.has(team.id)}`. */
  predicate IsOpen(open: set<string>, team: TeamGroup)
  {
    team.id in open
  }

  /**
   * Before any toggle, a group renders open exactly when some team with the same
   * id (itself, or another sharing its id) has `defaultOpen`.
   */
  lemma InitiallyOpenIff(teams: seq<TeamGroup>, team: TeamGroup)
    ensures IsOpen(InitialOpenGroups(teams), team) <==>
              exists t :: t in teams && t.defaultOpen && t.id == team.id
  {
    InitialOpenGroupsIff(teams, team.id);
  }

  /** Toggling one group leaves the rendered state of every group with another id alone. */
  lemma ToggleAffectsOnlyItsGroup(open: set<string>, groupId: string, team: TeamGroup)
    ensures IsOpen(Toggled(open, groupId), team) <==>
              (if team.id == groupId then !IsOpen(open, team) else IsOpen(open, team))
  {
  }

  /** `team.members.slice(0, 4)`. */
  function VisibleAvatars(members: seq<TeamMember>): (r: seq<TeamMember>)
    ensures r <= members
    ensures |r| == if |members| < MaxVisibleAvatars then |members| else MaxVisibleAvatars
  {
    if |members| < MaxVisibleAvatars then members else members[..MaxVisibleAvatars]
  }

  /** `Math.max(0, team.members.length - 4)`: the members the stack leaves out. */
  function RemainingCount(members: seq<TeamMember>): (r: nat)
    ensures |VisibleAvatars(members)| + r == |members|
    ensures members == VisibleAvatars(members) + members[|members| - r..]
  {
    if |members| - MaxVisibleAvatars > 0 then |members| - MaxVisibleAvatars else 0
  }

  /** The "+N" badge is rendered when `remainingCount > 0`. */
  predicate ShowsOverflowBadge(members: seq<TeamMember>)
  {
    RemainingCount(members) > 0
  }

  /** The badge shows exactly when a group has more members than the stack holds. */
  lemma OverflowBadgeIff(members: seq<TeamMember>)
    ensures ShowsOverflowBadge(members) <==> |members| > MaxVisibleAvatars
    ensures !ShowsOverflowBadge(members) ==> VisibleAvatars(members) == members
  {
  }

  /** The `TeamMembers` component's state. */
  class TeamMembers {
    var openGroups: set<string>

    constructor (teams: seq<TeamGroup>)
      ensures openGroups == InitialOpenGroups(teams)
    {
      openGroups := InitialOpenGroups(teams);
    }

    /** Copy the set, flip `groupId` in the copy, store the copy. */
    method ToggleGroup(groupId: string)
      modifies this
      ensures openGroups == Toggled(old(openGroups), groupId)
    {
      var newSet := openGroups;
      if groupId in newSet {
        newSet := newSet - {groupId};
      } else {
        newSet := newSet + {groupId};
      }
      openGroups := newSet;
    }
  }
}
