/**
 The profile page: the signed-in user's header, a row of status tabs and the
 user's projects filtered by the active tab. The page renders nothing without
 a signed-in user.
 */
module ProfilePage {
  import opened Core
  import opened Types

  /** The tabs, in the order the page draws them. */
  datatype Tab = ApprovedTab | PendingTab | DraftTab | MarketplaceTab

  /** A tab's label, which is also the project status it selects. */
  function TabName(t: Tab): string {
    match t
    case ApprovedTab => "Approved"
    case PendingTab => "Pending"
    case DraftTab => "Draft"
    case MarketplaceTab => "Marketplace"
  }

  const Tabs: seq<Tab> := [ApprovedTab, PendingTab, DraftTab, MarketplaceTab]

  /** The tab active when the page opens. */
  const DefaultTab: Tab := ApprovedTab

  /** Whether a project is listed under tab `t`: the marketplace tab lists
      nothing yet; every other tab lists the projects whose status is its label. */
  predicate Listed(p: Project, t: Tab) {
    t != MarketplaceTab && p.status == TabName(t)
  }

  /** The projects listed under tab `t`, in their original order. */
  function FilterByTab(projects: seq<Project>, t: Tab): (r: seq<Project>)
    ensures forall i :: 0 <= i < |r| ==> Listed(r[i], t)
    ensures forall p :: p in r <==> p in projects && Listed(p, t)
    ensures t == MarketplaceTab ==> r == []
    ensures |r| <= |projects|
  {
    if |projects| == 0 then []
    else
      (if Listed(projects[0], t) then [projects[0]] else []) + FilterByTab(projects[1..], t)
  }

  /** Filtering a concatenation filters each part. */
  lemma {:induction false} FilterAppend(a: seq<Project>, b: seq<Project>, t: Tab)
    ensures FilterByTab(a + b, t) == FilterByTab(a, t) + FilterByTab(b, t)
    decreases |a|
  {
    if |a| == 0 {
      assert a + b == b;
    } else {
      assert (a + b)[1..] == a[1..] + b;
      FilterAppend(a[1..], b, t);
    }
  }

  /** Every listed project is kept as many times as it occurs, every other
      project is dropped. */
  lemma FilterKeepsCount(projects: seq<Project>, t: Tab)
    ensures forall p :: multiset(FilterByTab(projects, t))[p] == if Listed(p, t) then multiset(projects)[p] else 0
  {
    forall p
      ensures multiset(FilterByTab(projects, t))[p] == if Listed(p, t) then multiset(projects)[p] else 0
    {
      FilterCount(projects, t, p);
    }
  }

  lemma {:induction false} FilterCount(projects: seq<Project>, t: Tab, p: Project)
    ensures multiset(FilterByTab(projects, t))[p] == if Listed(p, t) then multiset(projects)[p] else 0
    decreases |projects|
  {
    if |projects| > 0 {
      var head := if Listed(projects[0], t) then [projects[0]] else [];
      var rest := FilterByTab(projects[1..], t);
      FilterCount(projects[1..], t, p);
      assert FilterByTab(projects, t) == head + rest;
      assert multiset(head + rest)[p] == multiset(head)[p] + multiset(rest)[p];
      MultisetCons(projects);
    }
  }

  lemma MultisetCons(s: seq<Project>)
    requires |s| > 0
    ensures multiset(s) == multiset{s[0]} + multiset(s[1..])
  {
    assert s == [s[0]] + s[1..];
  }

  /** A project with one of the three status labels appears under exactly
      that tab; one with any other status appears under none. */
  lemma ExactlyOneTab(p: Project, t: Tab, u: Tab)
    ensures Listed(p, t) && Listed(p, u) ==> t == u
    ensures (exists t' :: Listed(p, t')) <==> p.status in {"Approved", "Pending", "Draft"}
  {
    if p.status == "Approved" {
      assert Listed(p, ApprovedTab);
    } else if p.status == "Pending" {
      assert Listed(p, PendingTab);
    } else if p.status == "Draft" {
      assert Listed(p, DraftTab);
    }
  }

  /** The three status tabs together list every project whose status is one
      of their labels, each once. */
  lemma {:induction false} TabsPartition(projects: seq<Project>)
    requires forall i :: 0 <= i < |projects| ==> projects[i].status in {"Approved", "Pending", "Draft"}
    ensures |FilterByTab(projects, ApprovedTab)| + |FilterByTab(projects, PendingTab)|
              + |FilterByTab(projects, DraftTab)| == |projects|
    decreases |projects|
  {
    if |projects| > 0 {
      TabsPartition(projects[1..]);
    }
  }

  /** The demonstration projects listed on the page. */
  const UserProjects: seq<Project> := [
    Project("p1", "My Awesome App", "Productivity", "Web", "Approved"),
    Project("p2", "Draft Project", "AI Tools", "Mobile", "Draft")
  ]

  /** What the page draws for a signed-in user. */
  datatype View = View(
    name: string,
    email: string,
    avatar: Option<string>,
    verifiedBadge: bool,
    activeTab: Tab,
    listed: seq<Project>)

  /** The page: nothing without a user; otherwise the user's header and the
      projects of the active tab. */
  function Render(user: Option<User>, activeTab: Tab): (v: Option<View>)
    ensures v.None? <==> user.None?
    ensures v.Some? ==>
              v.value.name == user.value.name && v.value.email == user.value.email && v.value.avatar == user.value.avatar
    ensures v.Some? ==> (v.value.verifiedBadge <==> user.value.verified)
    ensures v.Some? ==> v.value.activeTab == activeTab
    ensures v.Some? ==>
              forall i :: 0 <= i < |v.value.listed| ==>
                v.value.listed[i] in UserProjects && Listed(v.value.listed[i], activeTab)
  {
    if user.None? then None
    else
      var u := user.value;
      Some(View(u.name, u.email, u.avatar, u.verified, activeTab, FilterByTab(UserProjects, activeTab)))
  }

  /** What each tab lists: the approved project on the default tab, the
      draft on the drafts tab, nothing on the other two. */
  lemma TabContents(u: User)
    ensures Render(Some(u), DefaultTab).value.listed == [UserProjects[0]]
    ensures Render(Some(u), DraftTab).value.listed == [UserProjects[1]]
    ensures Render(Some(u), PendingTab).value.listed == []
    ensures Render(Some(u), MarketplaceTab).value.listed == []
  {
    var a, b := UserProjects[0], UserProjects[1];
    assert UserProjects == [a, b];
    assert FilterByTab(UserProjects, DefaultTab) == [a] by {
      FilterPair(a, b, DefaultTab);
    }
    assert FilterByTab(UserProjects, DraftTab) == [b] by {
      FilterPair(a, b, DraftTab);
    }
    assert FilterByTab(UserProjects, PendingTab) == [] by {
      FilterPair(a, b, PendingTab);
    }
  }

  /** Filtering a two-element list keeps each element that is listed. */
  lemma FilterPair(a: Project, b: Project, t: Tab)
    ensures FilterByTab([a, b], t) == (if Listed(a, t) then [a] else []) + (if Listed(b, t) then [b] else [])
  {
    assert [a, b][1..] == [b];
    assert [b][1..] == [];
  }
}
