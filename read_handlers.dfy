/** The read handlers. Each one is a single SELECT over one table, so each
    is a function of that table's rows: it cannot change them. A list
    handler is a filter followed by an ORDER BY; a slug handler is an exact,
    case-sensitive match (string equality), possibly gated by a visibility
    flag, with LIMIT 1. Returned rows are the stored rows, unchanged. */
module ReadHandlers {
  import opened Wrappers
  import opened Query
  import opened Tables

  // ---- orderings ---------------------------------------------------------

  /** ORDER BY display_order ASC. */
  predicate ServiceBefore(a: Service, b: Service) {
    a.displayOrder <= b.displayOrder
  }

  predicate TeamMemberBefore(a: TeamMember, b: TeamMember) {
    a.displayOrder <= b.displayOrder
  }

  /** ORDER BY created_at DESC. */
  predicate CaseStudyBefore(a: CaseStudy, b: CaseStudy) {
    a.createdAt >= b.createdAt
  }

  predicate ContactFormBefore(a: ContactForm, b: ContactForm) {
    a.createdAt >= b.createdAt
  }

  /** ORDER BY published_at DESC NULLS LAST, created_at DESC. */
  predicate FeedBefore(a: BlogPost, b: BlogPost) {
    match (a.publishedAt, b.publishedAt)
    case (Some(x), Some(y)) => x > y || (x == y && a.createdAt >= b.createdAt)
    case (Some(_), None) => true
    case (None, Some(_)) => false
    case (None, None) => a.createdAt >= b.createdAt
  }

  lemma OrderingsAreTotalPreorders()
    ensures TotalPreorder(ServiceBefore)
    ensures TotalPreorder(TeamMemberBefore)
    ensures TotalPreorder(CaseStudyBefore)
    ensures TotalPreorder(ContactFormBefore)
    ensures TotalPreorder(FeedBefore)
  {
  }

  // ---- services ----------------------------------------------------------

  /** getActiveServices: the active services, each as often as stored,
      lowest display_order first. */
  function GetActiveServices(services: seq<Service>): (r: seq<Service>)
    ensures forall s :: multiset(r)[s] == if s.isActive then multiset(services)[s] else 0
    ensures forall s :: s in r <==> s in services && s.isActive
    ensures forall i, j :: 0 <= i < j < |r| ==> r[i].displayOrder <= r[j].displayOrder
    ensures r == [] <==> forall s :: s in services ==> !s.isActive
  {
    var active := Filter(services, (s: Service) => s.isActive);
    assert Sorted(SortBy(active, ServiceBefore), ServiceBefore) by {
      OrderingsAreTotalPreorders();
      SortBySorted(active, ServiceBefore);
    }
    SortBy(active, ServiceBefore)
  }

  /** getServiceBySlug: the service with exactly this slug, if it is active. */
  function GetServiceBySlug(services: seq<Service>, slug: string): (r: Option<Service>)
    ensures r.Some? ==> r.value in services && r.value.slug == slug && r.value.isActive
    ensures r.None? <==> forall s :: s in services ==> s.slug != slug || !s.isActive
  {
    FirstWhere(services, (s: Service) => s.slug == slug && s.isActive)
  }

  // ---- team members ------------------------------------------------------

  /** getActiveTeamMembers: the active members, lowest display_order first;
      members that share a display_order are all listed. */
  function GetActiveTeamMembers(members: seq<TeamMember>): (r: seq<TeamMember>)
    ensures forall m :: multiset(r)[m] == if m.isActive then multiset(members)[m] else 0
    ensures forall m :: m in r <==> m in members && m.isActive
    ensures forall i, j :: 0 <= i < j < |r| ==> r[i].displayOrder <= r[j].displayOrder
    ensures r == [] <==> forall m :: m in members ==> !m.isActive
  {
    var active := Filter(members, (m: TeamMember) => m.isActive);
    assert Sorted(SortBy(active, TeamMemberBefore), TeamMemberBefore) by {
      OrderingsAreTotalPreorders();
      SortBySorted(active, TeamMemberBefore);
    }
    SortBy(active, TeamMemberBefore)
  }

  // ---- case studies ------------------------------------------------------

  /** getAllCaseStudies: every case study, newest first. */
  function GetAllCaseStudies(studies: seq<CaseStudy>): (r: seq<CaseStudy>)
    ensures multiset(r) == multiset(studies)
    ensures forall c :: c in r <==> c in studies
    ensures forall i, j :: 0 <= i < j < |r| ==> r[i].createdAt >= r[j].createdAt
  {
    assert Sorted(SortBy(studies, CaseStudyBefore), CaseStudyBefore) by {
      OrderingsAreTotalPreorders();
      SortBySorted(studies, CaseStudyBefore);
    }
    var r := SortBy(studies, CaseStudyBefore);
    assert forall c :: c in r <==> c in multiset(r);
    r
  }

  /** getFeaturedCaseStudies: the featured case studies, newest first. */
  function GetFeaturedCaseStudies(studies: seq<CaseStudy>): (r: seq<CaseStudy>)
    ensures forall c :: multiset(r)[c] == if c.isFeatured then multiset(studies)[c] else 0
    ensures forall c :: c in r <==> c in studies && c.isFeatured
    ensures forall i, j :: 0 <= i < j < |r| ==> r[i].createdAt >= r[j].createdAt
    ensures r == [] <==> forall c :: c in studies ==> !c.isFeatured
  {
    var featured := Filter(studies, (c: CaseStudy) => c.isFeatured);
    assert Sorted(SortBy(featured, CaseStudyBefore), CaseStudyBefore) by {
      OrderingsAreTotalPreorders();
      SortBySorted(featured, CaseStudyBefore);
    }
    SortBy(featured, CaseStudyBefore)
  }

  /** getCaseStudyBySlug: the case study with exactly this slug; there is
      no visibility flag to pass. */
  function GetCaseStudyBySlug(studies: seq<CaseStudy>, slug: string): (r: Option<CaseStudy>)
    ensures r.Some? ==> r.value in studies && r.value.slug == slug
    ensures r.None? <==> forall c :: c in studies ==> c.slug != slug
  {
    FirstWhere(studies, (c: CaseStudy) => c.slug == slug)
  }

  // ---- contact forms -----------------------------------------------------

  /** getContactForms: every submission, newest first. */
  function GetContactForms(forms: seq<ContactForm>): (r: seq<ContactForm>)
    ensures multiset(r) == multiset(forms)
    ensures forall c :: c in r <==> c in forms
    ensures forall i, j :: 0 <= i < j < |r| ==> r[i].createdAt >= r[j].createdAt
  {
    assert Sorted(SortBy(forms, ContactFormBefore), ContactFormBefore) by {
      OrderingsAreTotalPreorders();
      SortBySorted(forms, ContactFormBefore);
    }
    var r := SortBy(forms, ContactFormBefore);
    assert forall c :: c in r <==> c in multiset(r);
    r
  }

  // ---- blog posts --------------------------------------------------------

  /** getPublishedBlogPosts: the published posts, latest publication first,
      posts without a publication time after all that have one, and posts
      published at the same time (or both without one) latest created first. */
  function GetPublishedBlogPosts(posts: seq<BlogPost>): (r: seq<BlogPost>)
    ensures forall p :: multiset(r)[p] == if p.isPublished then multiset(posts)[p] else 0
    ensures forall p :: p in r <==> p in posts && p.isPublished
    ensures r == [] <==> forall p :: p in posts ==> !p.isPublished
    ensures forall i, j :: 0 <= i < j < |r| && r[i].publishedAt.None? ==> r[j].publishedAt.None?
    ensures forall i, j :: 0 <= i < j < |r| && r[i].publishedAt.Some? && r[j].publishedAt.Some? ==>
              r[i].publishedAt.value >= r[j].publishedAt.value
    ensures forall i, j :: 0 <= i < j < |r| && r[i].publishedAt == r[j].publishedAt ==>
              r[i].createdAt >= r[j].createdAt
  {
    var published := Filter(posts, (p: BlogPost) => p.isPublished);
    var r := SortBy(published, FeedBefore);
    assert Sorted(r, FeedBefore) by {
      OrderingsAreTotalPreorders();
      SortBySorted(published, FeedBefore);
    }
    assert FeedOrdered(r) by {
      SortedFeedIsOrdered(r);
    }
    r
  }

  /** The three clauses of the feed's ORDER BY, read off pairwise. */
  ghost predicate FeedOrdered(r: seq<BlogPost>) {
    && (forall i, j :: 0 <= i < j < |r| && r[i].publishedAt.None? ==> r[j].publishedAt.None?)
    && (forall i, j :: 0 <= i < j < |r| && r[i].publishedAt.Some? && r[j].publishedAt.Some? ==>
          r[i].publishedAt.value >= r[j].publishedAt.value)
    && (forall i, j :: 0 <= i < j < |r| && r[i].publishedAt == r[j].publishedAt ==>
          r[i].createdAt >= r[j].createdAt)
  }

  lemma SortedFeedIsOrdered(r: seq<BlogPost>)
    requires Sorted(r, FeedBefore)
    ensures FeedOrdered(r)
  {
    forall i, j | 0 <= i < j < |r|
      ensures r[i].publishedAt.None? ==> r[j].publishedAt.None?
      ensures r[i].publishedAt.Some? && r[j].publishedAt.Some? ==>
                r[i].publishedAt.value >= r[j].publishedAt.value
      ensures r[i].publishedAt == r[j].publishedAt ==> r[i].createdAt >= r[j].createdAt
    {
      assert FeedBefore(r[i], r[j]);
    }
  }

  /** getBlogPostBySlug: the post with exactly this slug, if it is published. */
  function GetBlogPostBySlug(posts: seq<BlogPost>, slug: string): (r: Option<BlogPost>)
    ensures r.Some? ==> r.value in posts && r.value.slug == slug && r.value.isPublished
    ensures r.None? <==> forall p :: p in posts ==> p.slug != slug || !p.isPublished
  {
    FirstWhere(posts, (p: BlogPost) => p.slug == slug && p.isPublished)
  }
}
