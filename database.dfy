/** The write handlers, over one shared database handle. The handle holds
    the six tables (rows in storage order) and, per table, the next value of
    its serial id sequence. Each handler is one atomic step and takes the
    current time as an argument. */
module Store {
  import opened Wrappers
  import opened Query
  import opened Tables
  import opened InputSchema

  /** SELECT * FROM newsletter_subscriptions WHERE email = ? LIMIT 1. */
  function LookupEmail(t: seq<Subscription>, email: string): (r: Option<Subscription>)
    ensures r.Some? ==> r.value in t && r.value.email == email
    ensures r.None? <==> !ColumnHas(t, SubscriptionEmail, email)
  {
    var r := FirstWhere(t, KeyEquals(SubscriptionEmail, email));
    assert r.None? <==> !ColumnHas(t, SubscriptionEmail, email) by {
      if ColumnHas(t, SubscriptionEmail, email) {
        var i :| 0 <= i < |t| && t[i].email == email;
        assert KeyEquals(SubscriptionEmail, email)(t[i]);
      }
    }
    r
  }

  /** SELECT * FROM newsletter_subscriptions WHERE email = ?: all rows. */
  function RowsWithEmail(t: seq<Subscription>, email: string): seq<Subscription> {
    Where(t, SubscriptionEmail, email)
  }

  /** UPDATE newsletter_subscriptions SET is_active = true, created_at = now
      WHERE id = ?. */
  function Reactivate(t: seq<Subscription>, id: int, now: Timestamp): seq<Subscription> {
    UpdateWhere(t, KeyEquals(SubscriptionId, id), (s: Subscription) => s.(isActive := true, createdAt := now))
  }

  /** Under a unique id, the UPDATE rewrites exactly the row with that id. */
  lemma ReactivateRewritesOneRow(t: seq<Subscription>, i: int, now: Timestamp)
    requires UniqueColumn(t, SubscriptionId)
    requires 0 <= i < |t|
    ensures Reactivate(t, t[i].id, now) == t[i := t[i].(isActive := true, createdAt := now)]
  {
    forall k | 0 <= k < |t| && k != i
      ensures !KeyEquals(SubscriptionId, t[i].id)(t[k])
    {
      if k < i {
        assert SubscriptionId(t[k]) != SubscriptionId(t[i]);
      } else {
        assert SubscriptionId(t[i]) != SubscriptionId(t[k]);
      }
    }
    UpdateWhereSingle(t, KeyEquals(SubscriptionId, t[i].id),
                      (s: Subscription) => s.(isActive := true, createdAt := now), i);
  }

  /** Under a unique email, the email lookup finds the one row that holds it. */
  lemma LookupEmailFindsRow(t: seq<Subscription>, s: Subscription)
    requires UniqueColumn(t, SubscriptionEmail)
    requires s in t
    ensures LookupEmail(t, s.email) == Some(s)
  {
    var i :| 0 <= i < |t| && t[i] == s;
    assert ColumnHas(t, SubscriptionEmail, s.email);
    var r := LookupEmail(t, s.email);
    UniqueKeySameRow(t, SubscriptionEmail, r.value, s);
  }

  class Database {
    var contactForms: seq<ContactForm>
    var subscriptions: seq<Subscription>
    var blogPosts: seq<BlogPost>
    var caseStudies: seq<CaseStudy>
    var services: seq<Service>
    var teamMembers: seq<TeamMember>

    /** The value each table's id sequence hands out next. */
    var contactFormSerial: int
    var subscriptionSerial: int
    var blogPostSerial: int
    var caseStudySerial: int
    var serviceSerial: int
    var teamMemberSerial: int

    /** The schema's constraints: serial primary keys everywhere, a unique
        email for subscriptions and a unique slug for posts, case studies
        and services. Team members have no unique column. */
    ghost predicate Valid()
      reads this
    {
      && SerialKey(contactForms, ContactFormId, contactFormSerial)
      && SerialKey(subscriptions, SubscriptionId, subscriptionSerial)
      && UniqueColumn(subscriptions, SubscriptionEmail)
      && SerialKey(blogPosts, BlogPostId, blogPostSerial)
      && UniqueColumn(blogPosts, BlogPostSlug)
      && SerialKey(caseStudies, CaseStudyId, caseStudySerial)
      && UniqueColumn(caseStudies, CaseStudySlug)
      && SerialKey(services, ServiceId, serviceSerial)
      && UniqueColumn(services, ServiceSlug)
      && SerialKey(teamMembers, TeamMemberId, teamMemberSerial)
    }

    /** A freshly created schema: every table empty, every sequence at 1. */
    constructor ()
      ensures Valid()
      ensures contactForms == [] && subscriptions == [] && blogPosts == []
      ensures caseStudies == [] && services == [] && teamMembers == []
      ensures contactFormSerial == 1 && subscriptionSerial == 1 && blogPostSerial == 1
      ensures caseStudySerial == 1 && serviceSerial == 1 && teamMemberSerial == 1
    {
      contactForms, subscriptions, blogPosts := [], [], [];
      caseStudies, services, teamMembers := [], [], [];
      contactFormSerial, subscriptionSerial, blogPostSerial := 1, 1, 1;
      caseStudySerial, serviceSerial, teamMemberSerial := 1, 1, 1;
    }

    /** createContactForm: stores the submission verbatim under a fresh id.
        Nothing in the table is unique, so it always succeeds. */
    method CreateContactForm(input: CreateContactFormInput, now: Timestamp) returns (r: ContactForm)
      requires Valid()
      modifies this`contactForms, this`contactFormSerial
      ensures Valid()
      ensures r == ContactForm(old(contactFormSerial), input.name, input.email, input.company,
                               input.message, now)
      ensures !ColumnHas(old(contactForms), ContactFormId, r.id)
      ensures contactForms == old(contactForms) + [r]
      ensures contactFormSerial == old(contactFormSerial) + 1
    {
      r := ContactForm(contactFormSerial, input.name, input.email, input.company, input.message, now);
      NextSerialIsFresh(contactForms, ContactFormId, contactFormSerial);
      AppendNextSerial(contactForms, ContactFormId, contactFormSerial, r);
      contactForms := contactForms + [r];
      contactFormSerial := contactFormSerial + 1;
    }

    /** createNewsletterSubscription: an active row for the email is returned
        as it is; an inactive one is reactivated in place with a new
        created_at; an unknown email gets a new active row. Afterwards the
        email's one row is active and is the row returned. */
    method CreateNewsletterSubscription(input: CreateNewsletterSubscriptionInput, now: Timestamp)
      returns (r: Subscription)
      requires Valid()
      modifies this`subscriptions, this`subscriptionSerial
      ensures Valid()
      ensures r.email == input.email && r.isActive
      ensures LookupEmail(subscriptions, input.email) == Some(r)
      ensures var found := old(LookupEmail(subscriptions, input.email));
        found.None? ==>
          && r == Subscription(old(subscriptionSerial), input.email, true, now)
          && subscriptions == old(subscriptions) + [r]
          && subscriptionSerial == old(subscriptionSerial) + 1
      ensures var found := old(LookupEmail(subscriptions, input.email));
        found.Some? && found.value.isActive ==>
          && r == found.value
          && subscriptions == old(subscriptions)
          && subscriptionSerial == old(subscriptionSerial)
      ensures var found := old(LookupEmail(subscriptions, input.email));
        found.Some? && !found.value.isActive ==>
          && r == found.value.(isActive := true, createdAt := now)
          && subscriptions == Reactivate(old(subscriptions), r.id, now)
          && |subscriptions| == |old(subscriptions)|
          && (forall k :: 0 <= k < |subscriptions| ==>
                subscriptions[k] == if old(subscriptions)[k].id == r.id then r else old(subscriptions)[k])
          && subscriptionSerial == old(subscriptionSerial)
    {
      var existing := LookupEmail(subscriptions, input.email);
      if existing.Some? {
        var found := existing.value;
        if found.isActive {
          return found;
        }
        var i :| 0 <= i < |subscriptions| && subscriptions[i] == found;
        r := found.(isActive := true, createdAt := now);
        ReactivateRewritesOneRow(subscriptions, i, now);
        ReplaceKeepsSerial(subscriptions, SubscriptionId, subscriptionSerial, i, r);
        ReplaceKeepsUnique(subscriptions, SubscriptionEmail, i, r);
        forall k | 0 <= k < |subscriptions|
          ensures k != i ==> subscriptions[k].id != r.id
        {
          if k < i {
            assert SubscriptionId(subscriptions[k]) != SubscriptionId(subscriptions[i]);
          } else if k > i {
            assert SubscriptionId(subscriptions[i]) != SubscriptionId(subscriptions[k]);
          }
        }
        subscriptions := Reactivate(subscriptions, r.id, now);
        assert subscriptions[i] == r;
        LookupEmailFindsRow(subscriptions, r);
      } else {
        r := Subscription(subscriptionSerial, input.email, true, now);
        AppendNextSerial(subscriptions, SubscriptionId, subscriptionSerial, r);
        AppendKeepsUnique(subscriptions, SubscriptionEmail, r);
        subscriptions := subscriptions + [r];
        subscriptionSerial := subscriptionSerial + 1;
        assert subscriptions[|subscriptions| - 1] == r;
        LookupEmailFindsRow(subscriptions, r);
      }
    }

    /** createBlogPost: stores the post with a fresh id, stamping
        published_at with the current time exactly when it is published.
        A slug already in the table makes the insert fail and leaves the
        table as it was; the error reaches the caller. */
    method CreateBlogPost(input: CreateBlogPostInput, now: Timestamp)
      returns (r: Result<BlogPost, DbError>)
      requires Valid()
      modifies this`blogPosts, this`blogPostSerial
      ensures Valid()
      ensures r.Failure? <==> old(ColumnHas(blogPosts, BlogPostSlug, input.slug))
      ensures r.Failure? ==>
        && r.error == UniqueViolation(BLOG_POST_SLUG_UNIQUE)
        && blogPosts == old(blogPosts)
        && blogPostSerial == old(blogPostSerial)
      ensures r.Success? ==>
        && r.value == BlogPost(old(blogPostSerial), input.title, input.slug, input.excerpt,
                               input.content, input.author, input.featuredImageUrl,
                               input.isPublished, if input.isPublished then Some(now) else None,
                               now, now)
        && blogPosts == old(blogPosts) + [r.value]
        && blogPostSerial == old(blogPostSerial) + 1
      ensures StampedWhenPublished(old(blogPosts)) ==> StampedWhenPublished(blogPosts)
    {
      if ColumnHas(blogPosts, BlogPostSlug, input.slug) {
        return Failure(UniqueViolation(BLOG_POST_SLUG_UNIQUE));
      }
      var publishedAt := if input.isPublished then Some(now) else None;
      var post := BlogPost(blogPostSerial, input.title, input.slug, input.excerpt, input.content,
                           input.author, input.featuredImageUrl, input.isPublished, publishedAt,
                           now, now);
      AppendNextSerial(blogPosts, BlogPostId, blogPostSerial, post);
      AppendKeepsUnique(blogPosts, BlogPostSlug, post);
      blogPosts := blogPosts + [post];
      blogPostSerial := blogPostSerial + 1;
      r := Success(post);
    }

    /** createCaseStudy: stores all ten input fields, technologies in their
        order, under a fresh id; a slug already in the table is refused. */
    method CreateCaseStudy(input: CreateCaseStudyInput, now: Timestamp)
      returns (r: Result<CaseStudy, DbError>)
      requires Valid()
      modifies this`caseStudies, this`caseStudySerial
      ensures Valid()
      ensures r.Failure? <==> old(ColumnHas(caseStudies, CaseStudySlug, input.slug))
      ensures r.Failure? ==>
        && r.error == UniqueViolation(CASE_STUDY_SLUG_UNIQUE)
        && caseStudies == old(caseStudies)
        && caseStudySerial == old(caseStudySerial)
      ensures r.Success? ==>
        && r.value == CaseStudy(old(caseStudySerial), input.title, input.slug, input.clientName,
                                input.industry, input.problemDescription, input.solutionDescription,
                                input.resultsDescription, input.imageUrl, input.technologiesUsed,
                                input.isFeatured, now, now)
        && caseStudies == old(caseStudies) + [r.value]
        && caseStudySerial == old(caseStudySerial) + 1
    {
      if ColumnHas(caseStudies, CaseStudySlug, input.slug) {
        return Failure(UniqueViolation(CASE_STUDY_SLUG_UNIQUE));
      }
      var study := CaseStudy(caseStudySerial, input.title, input.slug, input.clientName,
                             input.industry, input.problemDescription, input.solutionDescription,
                             input.resultsDescription, input.imageUrl, input.technologiesUsed,
                             input.isFeatured, now, now);
      AppendNextSerial(caseStudies, CaseStudyId, caseStudySerial, study);
      AppendKeepsUnique(caseStudies, CaseStudySlug, study);
      caseStudies := caseStudies + [study];
      caseStudySerial := caseStudySerial + 1;
      r := Success(study);
    }

    /** createService: stores the input as given (is_active false stays
        false, display_order as passed) under a fresh id. A display_order
        outside the `integer` column's range, or a slug already in the
        table, makes the insert fail with the table unchanged. */
    method CreateService(input: CreateServiceInput, now: Timestamp)
      returns (r: Result<Service, DbError>)
      requires Valid()
      modifies this`services, this`serviceSerial
      ensures Valid()
      ensures r.Failure? <==>
        !FitsInteger(input.displayOrder) || old(ColumnHas(services, ServiceSlug, input.slug))
      ensures r.Failure? ==>
        && r.error == (if FitsInteger(input.displayOrder) then UniqueViolation(SERVICE_SLUG_UNIQUE)
                       else NumericOutOfRange("display_order"))
        && services == old(services)
        && serviceSerial == old(serviceSerial)
      ensures r.Success? ==>
        && r.value == Service(old(serviceSerial), input.title, input.slug, input.description,
                              input.iconName, input.features, input.isActive, input.displayOrder,
                              now, now)
        && services == old(services) + [r.value]
        && serviceSerial == old(serviceSerial) + 1
    {
      if !FitsInteger(input.displayOrder) {
        return Failure(NumericOutOfRange("display_order"));
      }
      if ColumnHas(services, ServiceSlug, input.slug) {
        return Failure(UniqueViolation(SERVICE_SLUG_UNIQUE));
      }
      var service := Service(serviceSerial, input.title, input.slug, input.description,
                             input.iconName, input.features, input.isActive, input.displayOrder,
                             now, now);
      AppendNextSerial(services, ServiceId, serviceSerial, service);
      AppendKeepsUnique(services, ServiceSlug, service);
      services := services + [service];
      serviceSerial := serviceSerial + 1;
      r := Success(service);
    }
  }
}
