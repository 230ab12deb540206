/** What the handlers promise together: a row written by a create handler
    is what the matching read handler returns, subscribing is idempotent,
    and the payload defaults agree with the column defaults. */
module Lifecycle {
  import opened Wrappers
  import opened Query
  import opened Tables
  import opened InputSchema
  import opened ReadHandlers
  import opened Store

  // ---- slug lookups under the unique-slug constraint ----------------------

  /** A stored post's slug finds that very post when it is published, and
      nothing when it is not, even though the row exists. */
  lemma BlogPostBySlugIsTheRow(posts: seq<BlogPost>, p: BlogPost)
    requires UniqueColumn(posts, BlogPostSlug)
    requires p in posts
    ensures GetBlogPostBySlug(posts, p.slug) == if p.isPublished then Some(p) else None
  {
    var r := GetBlogPostBySlug(posts, p.slug);
    if r.Some? {
      UniqueKeySameRow(posts, BlogPostSlug, r.value, p);
    }
  }

  /** A stored service's slug finds that very service when it is active,
      and nothing when it is not. */
  lemma ServiceBySlugIsTheRow(services: seq<Service>, s: Service)
    requires UniqueColumn(services, ServiceSlug)
    requires s in services
    ensures GetServiceBySlug(services, s.slug) == if s.isActive then Some(s) else None
  {
    var r := GetServiceBySlug(services, s.slug);
    if r.Some? {
      UniqueKeySameRow(services, ServiceSlug, r.value, s);
    }
  }

  /** A stored case study's slug finds that very case study, featured or not. */
  lemma CaseStudyBySlugIsTheRow(studies: seq<CaseStudy>, c: CaseStudy)
    requires UniqueColumn(studies, CaseStudySlug)
    requires c in studies
    ensures GetCaseStudyBySlug(studies, c.slug) == Some(c)
  {
    var r := GetCaseStudyBySlug(studies, c.slug);
    UniqueKeySameRow(studies, CaseStudySlug, r.value, c);
  }

  /** Slugs are compared exactly: the upper-cased slug of a stored service
      finds nothing. */
  lemma SlugMatchIsCaseSensitive(s: Service)
    requires s.slug == "web-development" && s.isActive
    ensures GetServiceBySlug([s], "web-development") == Some(s)
    ensures GetServiceBySlug([s], "WEB-DEVELOPMENT") == None
    ensures GetServiceBySlug([s], "") == None
  {
    assert "web-development"[0] != "WEB-DEVELOPMENT"[0];
  }

  /** Under the unique email, selecting a stored subscription's email
      yields exactly that one row. */
  lemma OneRowPerEmail(t: seq<Subscription>, s: Subscription)
    requires UniqueColumn(t, SubscriptionEmail)
    requires s in t
    ensures RowsWithEmail(t, s.email) == [s]
  {
    var i :| 0 <= i < |t| && t[i] == s;
    WhereUniqueSize(t, SubscriptionEmail, s.email);
    var rows := RowsWithEmail(t, s.email);
    assert |rows| == 1;
    assert rows[0] in rows;
    assert KeyEquals(SubscriptionEmail, s.email)(s);
    assert s in rows;
  }

  // ---- the payload defaults are the column defaults -----------------------

  /** A payload that leaves a defaulted key out stores the same value as an
      insert that leaves the column out. */
  lemma PayloadDefaultsAreColumnDefaults(post: RawBlogPost, study: RawCaseStudy, service: RawService,
                                         member: RawTeamMember)
    requires ValidateBlogPost(post).Success? && post.isPublished.Missing?
    requires ValidateCaseStudy(study).Success? && study.isFeatured.Missing?
    requires ValidateService(service).Success? && service.isActive.Missing? && service.displayOrder.Missing?
    requires ValidateTeamMember(member).Success? && member.isActive.Missing? && member.displayOrder.Missing?
    ensures ValidateBlogPost(post).value.isPublished == BLOG_POST_IS_PUBLISHED_DEFAULT
    ensures ValidateCaseStudy(study).value.isFeatured == CASE_STUDY_IS_FEATURED_DEFAULT
    ensures ValidateService(service).value.isActive == SERVICE_IS_ACTIVE_DEFAULT
    ensures ValidateService(service).value.displayOrder == SERVICE_DISPLAY_ORDER_DEFAULT
    ensures ValidateTeamMember(member).value.isActive == TEAM_MEMBER_IS_ACTIVE_DEFAULT
    ensures ValidateTeamMember(member).value.displayOrder == TEAM_MEMBER_DISPLAY_ORDER_DEFAULT
  {
  }

  // ---- create, then read ---------------------------------------------------

  /** A created post is found by its slug exactly when it was created
      published; a duplicate slug creates nothing. */
  method CreateBlogPostThenFetch(db: Database, input: CreateBlogPostInput, now: Timestamp)
    returns (created: Result<BlogPost, DbError>, fetched: Option<BlogPost>)
    requires db.Valid()
    modifies db`blogPosts, db`blogPostSerial
    ensures db.Valid()
    ensures db.blogPosts == old(db.blogPosts) + (if created.Success? then [created.value] else [])
    ensures created.Success? ==>
      && fetched == (if input.isPublished then Some(created.value) else None)
      && (created.value.publishedAt == if input.isPublished then Some(now) else None)
  {
    created := db.CreateBlogPost(input, now);
    fetched := GetBlogPostBySlug(db.blogPosts, input.slug);
    if created.Success? {
      assert created.value == db.blogPosts[|db.blogPosts| - 1];
      BlogPostBySlugIsTheRow(db.blogPosts, created.value);
    }
  }

  /** A created case study is found by its slug with every field, its
      technologies in the order given (an empty list stays empty). */
  method CreateCaseStudyThenFetch(db: Database, input: CreateCaseStudyInput, now: Timestamp)
    returns (created: Result<CaseStudy, DbError>, fetched: Option<CaseStudy>)
    requires db.Valid()
    modifies db`caseStudies, db`caseStudySerial
    ensures db.Valid()
    ensures db.caseStudies == old(db.caseStudies) + (if created.Success? then [created.value] else [])
    ensures created.Success? ==>
      && fetched == Some(created.value)
      && fetched.value.technologiesUsed == input.technologiesUsed
      && fetched.value.slug == input.slug
  {
    created := db.CreateCaseStudy(input, now);
    fetched := GetCaseStudyBySlug(db.caseStudies, input.slug);
    if created.Success? {
      assert created.value == db.caseStudies[|db.caseStudies| - 1];
      CaseStudyBySlugIsTheRow(db.caseStudies, created.value);
    }
  }

  /** A created service is found by its slug exactly when it was created
      active. */
  method CreateServiceThenFetch(db: Database, input: CreateServiceInput, now: Timestamp)
    returns (created: Result<Service, DbError>, fetched: Option<Service>)
    requires db.Valid()
    modifies db`services, db`serviceSerial
    ensures db.Valid()
    ensures db.services == old(db.services) + (if created.Success? then [created.value] else [])
    ensures created.Success? ==> fetched == if input.isActive then Some(created.value) else None
  {
    created := db.CreateService(input, now);
    fetched := GetServiceBySlug(db.services, input.slug);
    if created.Success? {
      assert created.value == db.services[|db.services| - 1];
      ServiceBySlugIsTheRow(db.services, created.value);
    }
  }

  /** Creating the same slug twice: the second insert fails and the table
      keeps the first row only. */
  method CreateCaseStudyTwice(db: Database, input: CreateCaseStudyInput, t1: Timestamp, t2: Timestamp)
    returns (first: Result<CaseStudy, DbError>, second: Result<CaseStudy, DbError>)
    requires db.Valid()
    modifies db`caseStudies, db`caseStudySerial
    ensures db.Valid()
    ensures second.Failure? && second.error == UniqueViolation(CASE_STUDY_SLUG_UNIQUE)
    ensures db.caseStudies == old(db.caseStudies) + (if first.Success? then [first.value] else [])
  {
    first := db.CreateCaseStudy(input, t1);
    if first.Success? {
      assert CaseStudySlug(db.caseStudies[|db.caseStudies| - 1]) == input.slug;
    }
    assert ColumnHas(db.caseStudies, CaseStudySlug, input.slug);
    second := db.CreateCaseStudy(input, t2);
  }

  // ---- newsletter --------------------------------------------------------

  /** Subscribing twice with one email returns the same row both times, and
      exactly one row holds the email afterwards. */
  method SubscribeTwice(db: Database, input: CreateNewsletterSubscriptionInput, t1: Timestamp, t2: Timestamp)
    returns (first: Subscription, second: Subscription)
    requires db.Valid()
    modifies db`subscriptions, db`subscriptionSerial
    ensures db.Valid()
    ensures second == first && second.id == first.id
    ensures first.email == input.email && first.isActive
    ensures RowsWithEmail(db.subscriptions, input.email) == [first]
  {
    first := db.CreateNewsletterSubscription(input, t1);
    second := db.CreateNewsletterSubscription(input, t2);
    OneRowPerEmail(db.subscriptions, second);
  }

  /** Subscribing again after the row was deactivated reactivates that same
      row, with a created_at later than before, and leaves one row for the
      email. */
  method Resubscribe(db: Database, input: CreateNewsletterSubscriptionInput, ghost before: Subscription,
                     now: Timestamp)
    returns (r: Subscription)
    requires db.Valid()
    requires before in db.subscriptions && before.email == input.email && !before.isActive
    requires before.createdAt < now
    modifies db`subscriptions, db`subscriptionSerial
    ensures db.Valid()
    ensures r.id == before.id && r.email == before.email && r.isActive
    ensures r.createdAt > before.createdAt
    ensures |db.subscriptions| == |old(db.subscriptions)|
    ensures RowsWithEmail(db.subscriptions, input.email) == [r]
  {
    LookupEmailFindsRow(db.subscriptions, before);
    r := db.CreateNewsletterSubscription(input, now);
    OneRowPerEmail(db.subscriptions, r);
  }

  /** Two different new emails each get their own row, under distinct ids. */
  method SubscribeTwoEmails(db: Database, a: CreateNewsletterSubscriptionInput,
                            b: CreateNewsletterSubscriptionInput, t1: Timestamp, t2: Timestamp)
    returns (ra: Subscription, rb: Subscription)
    requires db.Valid()
    requires a.email != b.email
    requires !ColumnHas(db.subscriptions, SubscriptionEmail, a.email)
    requires !ColumnHas(db.subscriptions, SubscriptionEmail, b.email)
    modifies db`subscriptions, db`subscriptionSerial
    ensures db.Valid()
    ensures db.subscriptions == old(db.subscriptions) + [ra, rb]
    ensures ra.email == a.email && rb.email == b.email && ra.id != rb.id
  {
    ra := db.CreateNewsletterSubscription(a, t1);
    forall k | 0 <= k < |db.subscriptions|
      ensures SubscriptionEmail(db.subscriptions[k]) != b.email
    {
      if k < |old(db.subscriptions)| {
        assert db.subscriptions[k] == old(db.subscriptions)[k];
      }
    }
    rb := db.CreateNewsletterSubscription(b, t2);
  }

  // ---- contact forms -------------------------------------------------------

  /** Two identical submissions are two rows with distinct ids. */
  method SubmitTwice(db: Database, input: CreateContactFormInput, t1: Timestamp, t2: Timestamp)
    returns (first: ContactForm, second: ContactForm)
    requires db.Valid()
    modifies db`contactForms, db`contactFormSerial
    ensures db.Valid()
    ensures db.contactForms == old(db.contactForms) + [first, second]
    ensures first.id != second.id
    ensures first.message == second.message == input.message
  {
    first := db.CreateContactForm(input, t1);
    second := db.CreateContactForm(input, t2);
  }
}
